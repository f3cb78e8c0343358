/** What users do to a job. Every operation reads, then runs one transaction, and others may act at
    any time before it: whatever happens, the world moves by protocol steps only, and an operation
    that reports success has made its own step last. */
module Services {
  import opened Jobs
  import opened Protocol
  import opened Worlds
  import opened Transactions

  datatype ServiceError = Invalid | NotFound | Conflict | Unavailable | Internal

  function Translate(e: DbError): ServiceError {
    match e
    case RowNotFound => NotFound
    case StaleVersion => Conflict
    case DriverFailed => Internal
  }

  /** What a successful operation leaves behind: its step was the last one, its row is in the table,
      and its event, if it has one, is the last one in the outbox. */
  ghost predicate Made(w: World, step: Step, change: Change, j: Job)
    reads w
  {
    && w.trace != [] && w.trace[|w.trace| - 1] == step
    && j.id in w.rows && w.rows[j.id] == j
    && (IsAnnounced(change) ==> w.outbox != [] && w.outbox[|w.outbox| - 1] == Event(change, j))
  }

  /** The job waits for its upload, and still has time. */
  predicate AwaitsUpload(j: Job, now: Time) {
    j.status.Uploading? && j.uploadExpires.Some? && j.uploadExpires.value > now
  }

  class Service {
    const world: World
    const uploadTTL: int

    constructor (world: World, uploadTTL: int)
      ensures this.world == world && this.uploadTTL == uploadTTL
    {
      this.world, this.uploadTTL := world, uploadTTL;
    }

    /** A place to upload to exists as long as the job waits for its upload. */
    method CreateUpload(j: Job, now: Time) returns (err: Option<ServiceError>)
      ensures err.None? ==> AwaitsUpload(j, now)
      ensures err == Some(Conflict) ==> !AwaitsUpload(j, now)
      ensures err.Some? ==> err.value.Conflict? || err.value.Unavailable?
    {
      if !j.status.Uploading? || j.uploadExpires.None? || j.uploadExpires.value <= now { return Some(Conflict); }
      var fails: bool := *;
      err := if fails then Some(Unavailable) else None;
    }

    /** Success comes with a place to upload to. A request conflicts only with a job that holds its key
        and is for something else or is not waiting for its upload, never with a job of its own. */
    method Create(id: Id, scope: Scope, dataset: Text, service: Text, format: Text, key: Text, now: Time, actor: Text)
      returns (r: Result<Job, ServiceError>, replayed: bool)
      requires world.Valid() && id !in world.history
      modifies world
      ensures world.Valid() && old(world.trace) <= world.trace
      ensures r.Ok? && !replayed ==>
                && r.value == NewJob(id, scope, dataset, service, format, key, now + uploadTTL, now, actor)
                && Made(world, CreateStep(id, scope, dataset, service, format, key, now + uploadTTL, now, actor),
                        CreatedChange, r.value)
      ensures r.Ok? && replayed ==>
                && r.value.scope == scope && r.value.idempotencyKey == key
                && r.value.dataset == dataset && r.value.service == service && r.value.format == format
                && exists other :: other in world.rows && world.rows[other] == r.value
      ensures r.Ok? ==> AwaitsUpload(r.value, now)
      ensures r == Err(Conflict) && uploadTTL > 0 ==>
                exists other :: other in world.rows && Occupied(world.rows[other], scope, dataset, service, format, key, now)
    {
      replayed := false;
      var refused: bool := *;
      if refused || key == EMPTY { return Err(Invalid), false; }
      world.Others(Mine(None, Some(id)));
      var tx := new Transaction(world);
      var made, created := tx.Create(id, scope, dataset, service, format, key, now + uploadTTL, now, actor);
      ghost var step := CreateStep(id, scope, dataset, service, format, key, now + uploadTTL, now, actor);
      replayed := !created;
      if made.Err? { return Err(Translate(made.error)), false; }
      if created {
        CreateAmounts(world.Now(), made.value, step);
        var ok;
        ghost var done;
        ok, done := tx.End(false, None, step);
        if !ok { return Err(Internal), false; }
      } else if made.value.dataset != dataset || made.value.service != service || made.value.format != format {
        return Err(Conflict), true;
      }
      var err := CreateUpload(made.value, now);
      r := if err.Some? then Err(err.value) else Ok(made.value);
    }

    method CompleteUpload(scope: Scope, id: Id, expected: int, bytes: int, checksum: Text, now: Time, actor: Text)
      returns (r: Result<Job, ServiceError>)
      requires world.Valid()
      modifies world
      ensures world.Valid() && old(world.trace) <= world.trace
      ensures r.Ok? ==> Made(world, CompleteUploadStep(id, scope, expected, bytes, checksum, now, actor), RequestedChange, r.value)
      ensures r == Err(Conflict) ==> Completing(world.Now(), id, scope, expected, bytes, checksum, now, actor).None?
      ensures r == Err(NotFound) ==> Find(world.Now(), scope, id).None?
    {
      if expected < 1 || bytes < 1 || checksum == EMPTY { return Err(Invalid); }
      world.Others(NOTHING);
      var current := world.Get(scope, id);
      if current.Err? { return Err(Translate(current.error)); }
      var found: bool, size: int, sum: Text := *, *, *;
      if !found { return Err(Unavailable); }
      if size != bytes || (sum != EMPTY && world.codec.fold(sum) != world.codec.fold(checksum)) { return Err(Invalid); }
      world.Others(NOTHING);
      r := Request(scope, id, expected, bytes, checksum, now, actor);
    }

    method Request(scope: Scope, id: Id, expected: int, bytes: int, checksum: Text, now: Time, actor: Text)
      returns (r: Result<Job, ServiceError>)
      requires world.Valid()
      modifies world
      ensures world.Valid() && old(world.trace) <= world.trace
      ensures r.Ok? ==> Made(world, CompleteUploadStep(id, scope, expected, bytes, checksum, now, actor), RequestedChange, r.value)
      ensures r == Err(Conflict) ==> Completing(world.Now(), id, scope, expected, bytes, checksum, now, actor).None?
      ensures r.Err? ==> r.error.Conflict? || r.error.Internal?
    {
      var tx := new Transaction(world);
      var updated := tx.CompleteUpload(scope, id, expected, bytes, checksum, now, actor);
      var failed := tx.Announce(RequestedChange, updated);
      ghost var step := CompleteUploadStep(id, scope, expected, bytes, checksum, now, actor);
      if !failed { CompleteUploadAmounts(world.Now(), updated.value, step); }
      var ok;
      ghost var done;
      ok, done := tx.End(failed, None, step);
      r := Outcome(updated, ok);
    }

    method Cancel(scope: Scope, id: Id, expected: int, now: Time, actor: Text) returns (r: Result<Job, ServiceError>)
      requires world.Valid()
      modifies world
      ensures world.Valid() && old(world.trace) <= world.trace
      ensures r.Ok? ==> Made(world, CancelStep(id, scope, expected, now, actor), CanceledChange, r.value)
      ensures r == Err(Conflict) ==> Canceling(world.Now(), id, scope, expected, now, actor).None?
    {
      world.Others(NOTHING);
      var tx := new Transaction(world);
      var updated := tx.Cancel(scope, id, expected, now, actor);
      var failed := tx.Announce(CanceledChange, updated);
      ghost var step := CancelStep(id, scope, expected, now, actor);
      if !failed { CancelAmounts(world.Now(), updated.value, step); }
      var ok;
      ghost var done;
      ok, done := tx.End(failed, None, step);
      r := Outcome(updated, ok);
    }

    /** Retrying a job that is already waiting for its upload under the same key repeats the answer. */
    method Retry(scope: Scope, id: Id, expected: int, key: Text, now: Time, actor: Text)
      returns (r: Result<Job, ServiceError>, replayed: bool)
      requires world.Valid()
      modifies world
      ensures world.Valid() && old(world.trace) <= world.trace
      ensures r.Ok? && !replayed ==>
                Made(world, RetryStep(id, scope, expected, key, now + uploadTTL, now, actor), RetriedChange, r.value)
      ensures r.Ok? && replayed ==>
                Find(world.Now(), scope, id) == Some(r.value) && r.value.status.Uploading? && r.value.idempotencyKey == key
      ensures r.Ok? ==> AwaitsUpload(r.value, now)
      ensures r == Err(Conflict) && uploadTTL > 0 ==>
                || Retrying(world.Now(), id, scope, expected, key, now + uploadTTL, now, actor).None?
                || (Find(world.Now(), scope, id).Some? && !AwaitsUpload(Find(world.Now(), scope, id).value, now))
    {
      replayed := false;
      if expected < 1 || key == EMPTY { return Err(Invalid), false; }
      world.Others(NOTHING);
      var current := world.Get(scope, id);
      if current.Err? { return Err(Translate(current.error)), false; }
      var err;
      if current.value.status.Uploading? && current.value.idempotencyKey == key {
        err := CreateUpload(current.value, now);
        return if err.Some? then Err(err.value) else Ok(current.value), true;
      }
      world.Others(NOTHING);
      r := Restart(scope, id, expected, key, now, actor);
      if r.Err? { return; }
      err := CreateUpload(r.value, now);
      if err.Some? { r := Err(err.value); }
    }

    method Restart(scope: Scope, id: Id, expected: int, key: Text, now: Time, actor: Text)
      returns (r: Result<Job, ServiceError>)
      requires world.Valid()
      modifies world
      ensures world.Valid() && old(world.trace) <= world.trace
      ensures r.Ok? ==> Made(world, RetryStep(id, scope, expected, key, now + uploadTTL, now, actor), RetriedChange, r.value)
      ensures r.Ok? ==> r.value.status.Uploading? && r.value.uploadExpires == Some(now + uploadTTL)
      ensures r == Err(Conflict) ==> Retrying(world.Now(), id, scope, expected, key, now + uploadTTL, now, actor).None?
    {
      var tx := new Transaction(world);
      var updated := tx.Retry(scope, id, expected, key, now + uploadTTL, now, actor);
      var failed := tx.Announce(RetriedChange, updated);
      ghost var step := RetryStep(id, scope, expected, key, now + uploadTTL, now, actor);
      if !failed { RetryAmounts(world.Now(), updated.value, step); }
      var ok;
      ghost var done;
      ok, done := tx.End(failed, None, step);
      r := Outcome(updated, ok);
    }

    method Confirm(scope: Scope, id: Id, expected: int, key: Text, now: Time, actor: Text)
      returns (r: Result<Job, ServiceError>, replayed: bool)
      requires world.Valid()
      modifies world
      ensures world.Valid() && old(world.trace) <= world.trace
      ensures r.Ok? && !replayed ==> Made(world, ConfirmStep(id, scope, expected, key, now, actor), ApplyRequestedChange, r.value)
      ensures r.Ok? && replayed ==> Find(world.Now(), scope, id) == Some(r.value) && r.value.confirmKey == key
      ensures r == Err(Conflict) ==> Confirming(world.Now(), id, scope, expected, key, now, actor).None?
      ensures r == Err(NotFound) ==> Find(world.Now(), scope, id).None?
    {
      replayed := false;
      if expected < 1 || key == EMPTY { return Err(Invalid), false; }
      world.Others(NOTHING);
      var tx := new Transaction(world);
      var updated, created := tx.Confirm(scope, id, expected, key, now, actor);
      replayed := updated.Ok? && !created;
      if replayed { return Ok(updated.value), true; }
      var failed := tx.Announce(ApplyRequestedChange, updated);
      ghost var step := ConfirmStep(id, scope, expected, key, now, actor);
      if !failed { ConfirmAmounts(world.Now(), updated.value, step); }
      var ok;
      ghost var done;
      ok, done := tx.End(failed, None, step);
      r := Outcome(updated, ok);
    }
  }

  /** The key is held by a job for another import, or by one that waits for no upload. */
  predicate Occupied(j: Job, scope: Scope, dataset: Text, service: Text, format: Text, key: Text, now: Time) {
    && j.scope == scope && j.idempotencyKey == key
    && (j.dataset != dataset || j.service != service || j.format != format || !AwaitsUpload(j, now))
  }

  /** The answer after a transaction: the updated row once it is committed. */
  function Outcome(updated: Result<Job, DbError>, ok: bool): Result<Job, ServiceError> {
    match updated
    case Err(e) => Err(Translate(e))
    case Ok(j) => if ok then Ok(j) else Err(Internal)
  }
}
