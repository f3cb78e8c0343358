/** Database transactions: statements on one row, one outbox event, and their common end.

    A statement holds a lock on its row until the transaction ends, so between a statement and the
    end of its transaction nobody else acts on that row; before it, anybody may. */
module Transactions {
  import opened Rows
  import opened Jobs
  import opened Histories
  import opened Protocol
  import opened Runs
  import opened Worlds
  import opened Hiding

  /** What a transaction writes: a row with the record of its change, or the removal of a row, and an
      event; and the claim that ends with it. */
  datatype Writes = Writes(entry: Option<Entry<Row>>, event: Option<Event>, deleted: Option<Id>, ends: Option<nat>)

  function Installed(s: State, w: Writes): State
    requires w.ends.Some? ==> w.ends.value < |s.claims|
  {
    var s1 := if w.ends.Some? then Close(s, w.ends.value) else s;
    var s2 := if w.event.Some? then s1.(outbox := s1.outbox + [w.event.value]) else s1;
    var s3 := if w.deleted.Some? then s2.(rows := s2.rows - {w.deleted.value}) else s2;
    match w.entry
    case None => s3
    case Some(e) => s3.(rows := s3.rows[e.job.id := e.job], history := s3.history[e.job.id := Past(s3, e.job.id) + [e]])
  }

  /** What an announced change writes. */
  function Announcing(change: Change, j: Job, rows: seq<Row>, ends: Option<nat>): Writes {
    Writes(Some(Entry(change, j, rows)), Some(Event(change, j)), None, ends)
  }

  /** An announced change together with its event, and the end of the claim that made it. */
  lemma InstalledIsCommit(s: State, change: Change, j: Job, rows: seq<Row>, ends: Option<nat>)
    requires IsAnnounced(change) && (ends.Some? ==> ends.value < |s.claims|)
    ensures Installed(s, Announcing(change, j, rows, ends))
         == Commit(if ends.Some? then Close(s, ends.value) else s, change, j, rows)
  {
  }

  /** To install the writes is to take the step. It stands behind a quantifier so that steps are unfolded
      only where a statement is matched with its step. */
  ghost predicate AmountsTo(s: State, w: Writes, step: Step) {
    && (w.ends.Some? ==> w.ends.value < |s.claims|)
    && forall k {:trigger Asked(k)} :: Asked(k) ==> Installed(s, w) == Next(s, step)
  }

  // ---- each statement, when it has found its row, and the step it belongs to ----

  lemma CreateAmounts(s: State, j: Job, step: Step)
    requires step.CreateStep? && step.id !in s.history && KeyFree(s, step.scope, step.key, step.id)
    requires j == NewJob(step.id, step.scope, step.dataset, step.service, step.format, step.key, step.expires, step.now, step.actor)
    ensures AmountsTo(s, Writes(Some(Entry(CreatedChange, j, [])), None, None, None), step)
  {
  }

  lemma CompleteUploadAmounts(s: State, j: Job, step: Step)
    requires step.CompleteUploadStep?
    requires Completing(s, step.id, step.scope, step.expected, step.bytes, step.checksum, step.now, step.actor) == Some(j)
    ensures AmountsTo(s, Announcing(RequestedChange, j, [], None), step)
  {
    InstalledIsCommit(s, RequestedChange, j, [], None);
  }

  lemma CancelAmounts(s: State, j: Job, step: Step)
    requires step.CancelStep? && Canceling(s, step.id, step.scope, step.expected, step.now, step.actor) == Some(j)
    ensures AmountsTo(s, Announcing(CanceledChange, j, [], None), step)
  {
    InstalledIsCommit(s, CanceledChange, j, [], None);
  }

  lemma RetryAmounts(s: State, j: Job, step: Step)
    requires step.RetryStep?
    requires Retrying(s, step.id, step.scope, step.expected, step.key, step.expires, step.now, step.actor) == Some(j)
    ensures AmountsTo(s, Announcing(RetriedChange, j, [], None), step)
  {
    InstalledIsCommit(s, RetriedChange, j, [], None);
  }

  lemma ConfirmAmounts(s: State, j: Job, step: Step)
    requires step.ConfirmStep?
    requires Confirming(s, step.id, step.scope, step.expected, step.key, step.now, step.actor) == Some(j)
    ensures AmountsTo(s, Announcing(ApplyRequestedChange, j, [], None), step)
  {
    InstalledIsCommit(s, ApplyRequestedChange, j, [], None);
  }

  lemma FinishValidationAmounts(s: State, c: nat, j: Job, report: Report, expires: Time, now: Time)
    requires Running(s, c, Validation) && s.claims[c].report == Some(report)
    requires FinishingValidation(s, s.claims[c], report, expires, now) == Some(j)
    ensures AmountsTo(s, Announcing(ReportChange(report), j, report.normalized, Some(c)), FinishValidationStep(c, expires, now))
  {
    InstalledIsCommit(s, ReportChange(report), j, report.normalized, Some(c));
  }

  lemma FinishApplyAmounts(s: State, c: nat, j: Job, rows: seq<Row>, expires: Time, now: Time)
    requires Running(s, c, Apply) && AllAnswered(s.claims[c]) && s.claims[c].input == Some(rows)
    requires FinishingApply(s, s.claims[c], rows, expires, now) == Some(j)
    ensures AmountsTo(s, Announcing(SucceededChange, j, rows, Some(c)), FinishApplyStep(c, expires, now))
  {
    InstalledIsCommit(s, SucceededChange, j, rows, Some(c));
  }

  lemma FailAmounts(s: State, c: nat, j: Job, code: Text, message: Text, expires: Time, now: Time)
    requires c < |s.claims| && s.claims[c].open && Failing(s, s.claims[c], code, message, expires, now) == Some(j)
    ensures AmountsTo(s, Announcing(FailedChange, j, [], Some(c)), FailStep(c, code, message, expires, now))
  {
    InstalledIsCommit(s, FailedChange, j, [], Some(c));
  }

  lemma ExpireAmounts(s: State, j: Job, step: Step)
    requires step.ExpireStep? && Expiring(s, step.id, step.scope, step.listed, step.now) == Some(j)
    ensures AmountsTo(s, Announcing(ExpiredChange, j, [], None), step)
  {
    InstalledIsCommit(s, ExpiredChange, j, [], None);
  }

  lemma PurgeAmounts(s: State, step: Step)
    requires step.PurgeStep?
    ensures var gone := Purgeable(s, step.id, step.scope, step.version, step.before);
      AmountsTo(s, Writes(None, None, if gone then Some(step.id) else None, None), step)
  {
  }

  class Transaction {
    const world: World
    var write: Option<Entry<Row>>
    var event: Option<Event>
    var deleted: Option<Id>

    constructor (world: World)
      ensures this.world == world && write.None? && event.None? && deleted.None?
    {
      this.world, write, event, deleted := world, None, None, None;
    }

    /** Roll back or commit. A commit may fail before it has taken effect, and its confirmation may
        get lost after it has. `step` is what the transaction amounts to. */
    method End(failed: bool, ends: Option<nat>, ghost step: Step) returns (ok: bool, ghost done: bool)
      requires world.Valid() && Writable(world.codec, step)
      requires !failed ==> AmountsTo(world.Now(), Writes(write, event, deleted, ends), step)
      modifies world
      ensures world.Valid() && (ok ==> done) && (failed ==> !done)
      ensures world.trace == old(world.trace) + (if done then [step] else [])
      ensures world.Now() == if done then Installed(old(world.Now()), Writes(write, event, deleted, ends)) else old(world.Now())
    {
      var rejected: bool := *;
      ok, done := false, false;
      if failed || rejected { return; }
      assert Asked(0);
      var s := Installed(world.Now(), Writes(write, event, deleted, ends));
      world.Become(s, step);
      done := true;
      ok := *;
    }

    /** An UPDATE statement and the read of the updated row. */
    method Update(change: Change, updated: Option<Job>, rows: seq<Row>) returns (r: Result<Job, DbError>)
      requires write.None?
      modifies this`write
      ensures r.Ok? ==> updated == Some(r.value) && write == Some(Entry(change, r.value, rows))
      ensures r == Err(StaleVersion) ==> updated.None?
      ensures r != Err(RowNotFound)
      ensures updated.None? ==> r.Err? && write.None?
    {
      var fails: bool := *;
      if fails { return Err(DriverFailed); }
      match updated
      case None => r := Err(StaleVersion);
      case Some(j) =>
        write := Some(Entry(change, j, rows));
        var lost: bool := *;
        r := if lost then Err(DriverFailed) else Ok(j);
    }

    method AddOutbox(e: Event) returns (ok: bool)
      modifies this`event
      ensures ok ==> event == Some(e)
    {
      ok := *;
      if ok { event := Some(e); }
    }

    /** The event for an updated row, in the same transaction. */
    method Announce(change: Change, r: Result<Job, DbError>) returns (failed: bool)
      modifies this`event
      ensures !failed ==> r.Ok? && event == Some(Event(change, r.value))
    {
      if r.Err? { return true; }
      var ok := AddOutbox(Event(change, r.value));
      failed := !ok;
    }

    // ---- the statements ----

    method CompleteUpload(scope: Scope, id: Id, expected: int, bytes: int, checksum: Text, now: Time, actor: Text)
      returns (r: Result<Job, DbError>)
      requires write.None?
      modifies this`write
      ensures r.Ok? ==>
                && Completing(world.Now(), id, scope, expected, bytes, checksum, now, actor) == Some(r.value)
                && write == Some(Entry(RequestedChange, r.value, []))
      ensures r == Err(StaleVersion) ==> Completing(world.Now(), id, scope, expected, bytes, checksum, now, actor).None?
      ensures r != Err(RowNotFound)
    {
      var row := Find(world.Now(), scope, id);
      r := Update(RequestedChange,
                  if row.None? then None else Jobs.CompleteUpload(row.value, expected, bytes, checksum, now, actor), []);
    }

    method Cancel(scope: Scope, id: Id, expected: int, now: Time, actor: Text) returns (r: Result<Job, DbError>)
      requires write.None?
      modifies this`write
      ensures r.Ok? ==>
                && Canceling(world.Now(), id, scope, expected, now, actor) == Some(r.value)
                && write == Some(Entry(CanceledChange, r.value, []))
      ensures r == Err(StaleVersion) ==> Canceling(world.Now(), id, scope, expected, now, actor).None?
      ensures r != Err(RowNotFound)
    {
      var row := Find(world.Now(), scope, id);
      r := Update(CanceledChange, if row.None? then None else Jobs.Cancel(row.value, expected, now, actor), []);
    }

    /** Re-keying a row may run into the unique index. */
    method Retry(scope: Scope, id: Id, expected: int, key: Text, expires: Time, now: Time, actor: Text)
      returns (r: Result<Job, DbError>)
      requires write.None?
      modifies this`write
      ensures r.Ok? ==>
                && Retrying(world.Now(), id, scope, expected, key, expires, now, actor) == Some(r.value)
                && write == Some(Entry(RetriedChange, r.value, []))
      ensures r == Err(StaleVersion) ==> Retrying(world.Now(), id, scope, expected, key, expires, now, actor).None?
      ensures r != Err(RowNotFound)
    {
      var row := Find(world.Now(), scope, id);
      var updated := if row.None? then None else Jobs.Retry(row.value, expected, key, expires, now, actor);
      if updated.Some? && !KeyFree(world.Now(), scope, key, id) { return Err(DriverFailed); }
      r := Update(RetriedChange, updated, []);
    }

    /** Confirming again with the key already stored changes nothing. */
    method Confirm(scope: Scope, id: Id, expected: int, key: Text, now: Time, actor: Text)
      returns (r: Result<Job, DbError>, created: bool)
      requires write.None? && key != EMPTY && world.Valid()
      modifies this`write, world
      ensures world.Valid() && old(world.trace) <= world.trace
      ensures r.Ok? && created ==>
                && Confirming(world.Now(), id, scope, expected, key, now, actor) == Some(r.value)
                && write == Some(Entry(ApplyRequestedChange, r.value, []))
      ensures r.Ok? && !created ==>
                && Find(world.Now(), scope, id) == Some(r.value) && r.value.confirmKey == key && write.None?
                && Confirming(world.Now(), id, scope, expected, key, now, actor).None?
      ensures r == Err(StaleVersion) ==> Confirming(world.Now(), id, scope, expected, key, now, actor).None?
      ensures r == Err(RowNotFound) ==> Find(world.Now(), scope, id).None?
    {
      created := false;
      r := world.Get(scope, id);
      if r.Err? || r.value.confirmKey == key { return; }
      world.Others(NOTHING);
      var row := Find(world.Now(), scope, id);
      created := true;
      ReadyMeansUnconfirmed(world, scope, id);
      r := Update(ApplyRequestedChange, if row.None? then None else Jobs.Confirm(row.value, expected, key, now, actor), []);
    }

    /** Insert a new job, unless the idempotency key is taken; a concurrent request may take it
        between the look and the insertion. */
    method Create(id: Id, scope: Scope, dataset: Text, service: Text, format: Text,
                  key: Text, expires: Time, now: Time, actor: Text)
      returns (r: Result<Job, DbError>, created: bool)
      requires write.None? && world.Valid() && id !in world.history
      modifies this`write, world
      ensures world.Valid() && old(world.trace) <= world.trace && id !in world.history
      ensures r != Err(StaleVersion)
      ensures r.Ok? && created ==>
                && KeyFree(world.Now(), scope, key, id)
                && r.value == NewJob(id, scope, dataset, service, format, key, expires, now, actor)
                && write == Some(Entry(CreatedChange, r.value, []))
      ensures r.Ok? && !created ==>
                && write.None? && r.value.scope == scope && r.value.idempotencyKey == key
                && exists other :: other in world.rows && world.rows[other] == r.value
    {
      created := false;
      r := world.GetByKey(scope, key);
      if r.Ok? || r.error.DriverFailed? { return; }
      world.Others(Mine(None, Some(id)));
      var fails: bool := *;
      if !fails && KeyFree(world.Now(), scope, key, id) {
        var value := NewJob(id, scope, dataset, service, format, key, expires, now, actor);
        write := Some(Entry(CreatedChange, value, []));
        return Ok(value), true;
      }
      r := world.GetByKey(scope, key);
      if r.Err? { r := Err(DriverFailed); }
    }

    method FinishValidation(c: Claim, report: Report, expires: Time, now: Time) returns (r: Result<Job, DbError>)
      requires write.None?
      modifies this`write
      ensures r.Ok? ==>
                && FinishingValidation(world.Now(), c, report, expires, now) == Some(r.value)
                && write == Some(Entry(ReportChange(report), r.value, report.normalized))
    {
      var row := Find(world.Now(), c.scope, c.id);
      r := Update(ReportChange(report),
                  if row.None? then None else Jobs.FinishValidation(row.value, report.counts, expires, now), report.normalized);
    }

    method FinishApply(c: Claim, rows: seq<Row>, expires: Time, now: Time) returns (r: Result<Job, DbError>)
      requires write.None?
      modifies this`write
      ensures r.Ok? ==>
                && FinishingApply(world.Now(), c, rows, expires, now) == Some(r.value)
                && write == Some(Entry(SucceededChange, r.value, rows))
    {
      var row := Find(world.Now(), c.scope, c.id);
      r := Update(SucceededChange, if row.None? then None else Jobs.FinishApply(row.value, |rows|, expires, now), rows);
    }

    method Fail(c: Claim, code: Text, message: Text, expires: Time, now: Time) returns (r: Result<Job, DbError>)
      requires write.None?
      modifies this`write
      ensures r.Ok? ==>
                && Failing(world.Now(), c, code, message, expires, now) == Some(r.value)
                && write == Some(Entry(FailedChange, r.value, []))
    {
      var row := Find(world.Now(), c.scope, c.id);
      r := Update(FailedChange,
                  if row.None? then None else Jobs.Fail(row.value, ClaimStatus(c.kind), code, message, expires, now), []);
    }

    method Expire(listed: Job, now: Time) returns (r: Result<Job, DbError>)
      requires write.None? && Sweepable(listed.status)
      modifies this`write
      ensures r.Ok? ==>
                && Expiring(world.Now(), listed.id, listed.scope, listed.status, now) == Some(r.value)
                && write == Some(Entry(ExpiredChange, r.value, []))
      ensures r == Err(StaleVersion) ==> Expiring(world.Now(), listed.id, listed.scope, listed.status, now).None?
    {
      var row := Find(world.Now(), listed.scope, listed.id);
      r := Update(ExpiredChange, if row.None? then None else Jobs.Expire(row.value, listed.status, now), []);
    }

    /** Remove an expired row, if it is still the listed version and old enough. */
    method DeleteExpiredMetadata(listed: Job, before: Time) returns (gone: bool, ok: bool)
      requires deleted.None?
      modifies this`deleted
      ensures ok ==> gone == Purgeable(world.Now(), listed.id, listed.scope, listed.version, before)
      ensures ok ==> deleted == if gone then Some(listed.id) else None
    {
      gone, ok := false, *;
      if !ok { return; }
      gone := Purgeable(world.Now(), listed.id, listed.scope, listed.version, before);
      if gone { deleted := Some(listed.id); }
    }
  }

  /** A row that is ready has no confirmation key yet, whatever was read before. */
  lemma ReadyMeansUnconfirmed(world: World, scope: Scope, id: Id)
    requires world.Valid()
    ensures var row := Find(world.Now(), scope, id); row.Some? && row.value.status == Ready ==> row.value.confirmKey == EMPTY
  {
    world.ValidReached();
    if id in world.rows { RowsAreSound(world.Now(), id); }
  }
}
