/** One row of the `import_jobs` table, and the guarded UPDATE statements that change it.

    Every function below named after a change is one `UPDATE ... SET ... WHERE ... AND <guard>`
    statement on a row that already matches tenant, application and id: it yields the row the
    statement leaves behind, or None when the guard does not hold and no row is affected.
  */
module Jobs {

  datatype Option<+T> = None | Some(value: T)

  datatype Status =
    | Uploading | Queued | Validating | ValidationFailed | Ready | ApplyQueued
    | Applying | Succeeded | Failed | Canceled | Expired

  /** What an outbox event announces; `Created` and the two claims are never announced. */
  datatype Change =
    | CreatedChange | RequestedChange | CanceledChange | RetriedChange | ApplyRequestedChange
    | ValidationClaimed | ValidatedChange | ValidationFailedChange
    | ApplyClaimed | SucceededChange | FailedChange | ExpiredChange

  /** A text compared only as a whole: ids, keys, codes. */
  datatype Text = Text(chars: string)
  const EMPTY := Text("")

  type Id = Text
  type Time = int

  datatype Scope = Scope(tenant: Text, application: Text)

  /** Object names are built from scope, id and format only, so they are the same in every attempt. */
  datatype ObjectKey =
    | SourceObject(scope: Scope, id: Id, format: Text)
    | NormalizedObject(scope: Scope, id: Id)
    | ReportObject(scope: Scope, id: Id)

  datatype Job = Job(
    id: Id, scope: Scope, dataset: Text, service: Text, format: Text,
    status: Status, sourceKey: ObjectKey, normalizedKey: ObjectKey, reportKey: ObjectKey,
    checksum: Text, sourceBytes: int,
    total: int, valid: int, invalid: int, applied: int, progress: int,
    errorCode: Text, errorMessage: Text, idempotencyKey: Text, confirmKey: Text,
    uploadExpires: Option<Time>, started: Option<Time>, completed: Option<Time>, resultExpires: Option<Time>,
    version: int, createdAt: Time, updatedAt: Time, createdBy: Text, updatedBy: Text)

  /** What a finished validation knows about the file. */
  datatype Counts = Counts(total: int, valid: int, invalid: int)

  /** Every row of the file was counted once. */
  predicate Balanced(total: int, valid: int, invalid: int) {
    0 <= valid && 0 <= invalid && total == valid + invalid
  }

  predicate ZeroCounts(j: Job) { j.total == 0 && j.valid == 0 && j.invalid == 0 }

  predicate SameCounts(a: Job, b: Job) { a.total == b.total && a.valid == b.valid && a.invalid == b.invalid }

  predicate Cancelable(s: Status) { !s.Succeeded? && !s.Canceled? && !s.Expired? }
  predicate Retryable(s: Status) { s.ValidationFailed? || s.Failed? || s.Canceled? }
  predicate Sweepable(s: Status) { s.Uploading? || s.ValidationFailed? || s.Succeeded? || s.Failed? || s.Canceled? }

  predicate IsRetry(c: Change) { c == RetriedChange }
  predicate IsRequest(c: Change) { c == RequestedChange }
  predicate IsApplyRequest(c: Change) { c == ApplyRequestedChange }
  predicate IsValidationClaim(c: Change) { c == ValidationClaimed }
  predicate IsApplyClaim(c: Change) { c == ApplyClaimed }
  predicate IsClaim(c: Change) { c == ValidationClaimed || c == ApplyClaimed }
  predicate IsAnnounced(c: Change) { c != CreatedChange && !IsClaim(c) }

  /** The row inserted by a create request. */
  function NewJob(id: Id, scope: Scope, dataset: Text, service: Text, format: Text,
                  key: Text, expires: Time, now: Time, actor: Text): Job
  {
    Job(id, scope, dataset, service, format,
        Uploading, SourceObject(scope, id, format), NormalizedObject(scope, id), ReportObject(scope, id),
        EMPTY, 0, 0, 0, 0, 0, 0, EMPTY, EMPTY, key, EMPTY,
        Some(expires), None, None, None, 1, now, now, actor, actor)
  }

  function CompleteUpload(j: Job, expected: int, bytes: int, checksum: Text, now: Time, actor: Text): Option<Job> {
    if j.version == expected && j.status == Uploading then
      Some(j.(status := Queued, checksum := checksum, sourceBytes := bytes,
              version := j.version + 1, updatedAt := now, updatedBy := actor))
    else None
  }

  function Cancel(j: Job, expected: int, now: Time, actor: Text): Option<Job> {
    if j.version == expected && Cancelable(j.status) then
      Some(j.(status := Canceled, completed := Some(now),
              version := j.version + 1, updatedAt := now, updatedBy := actor))
    else None
  }

  function Retry(j: Job, expected: int, key: Text, expires: Time, now: Time, actor: Text): Option<Job> {
    if j.version == expected && Retryable(j.status) then
      Some(j.(status := Uploading,
              sourceKey := SourceObject(j.scope, j.id, j.format),
              normalizedKey := NormalizedObject(j.scope, j.id),
              reportKey := ReportObject(j.scope, j.id),
              checksum := EMPTY, sourceBytes := 0, total := 0, valid := 0, invalid := 0, applied := 0, progress := 0,
              errorCode := EMPTY, errorMessage := EMPTY, idempotencyKey := key, confirmKey := EMPTY,
              uploadExpires := Some(expires), started := None, completed := None, resultExpires := None,
              version := j.version + 1, updatedAt := now, updatedBy := actor))
    else None
  }

  function Confirm(j: Job, expected: int, key: Text, now: Time, actor: Text): Option<Job> {
    if j.version == expected && j.status == Ready then
      Some(j.(status := ApplyQueued, confirmKey := key,
              version := j.version + 1, updatedAt := now, updatedBy := actor))
    else None
  }

  function Claim(j: Job, from: Status, to: Status, now: Time): Option<Job> {
    if j.status == from then
      Some(j.(status := to, started := if j.started.None? then Some(now) else j.started,
              version := j.version + 1, updatedAt := now, updatedBy := Text("import-worker")))
    else None
  }

  function FinishValidation(j: Job, c: Counts, expires: Time, now: Time): Option<Job> {
    if j.status == Validating then
      Some(j.(status := if c.invalid > 0 then ValidationFailed else Ready,
              total := c.total, valid := c.valid, invalid := c.invalid, progress := 100,
              completed := Some(now), resultExpires := Some(expires),
              version := j.version + 1, updatedAt := now, updatedBy := Text("import-worker")))
    else None
  }

  function FinishApply(j: Job, applied: int, expires: Time, now: Time): Option<Job> {
    if j.status == Applying then
      Some(j.(status := Succeeded, applied := applied, progress := 100,
              completed := Some(now), resultExpires := Some(expires),
              version := j.version + 1, updatedAt := now, updatedBy := Text("import-worker")))
    else None
  }

  function Fail(j: Job, expected: Status, code: Text, message: Text, expires: Time, now: Time): Option<Job> {
    if j.status == expected then
      Some(j.(status := Failed, errorCode := code, errorMessage := message,
              completed := Some(now), resultExpires := Some(expires),
              version := j.version + 1, updatedAt := now, updatedBy := Text("import-worker")))
    else None
  }

  function Expire(j: Job, listed: Status, now: Time): Option<Job> {
    if j.status == listed then
      Some(j.(status := Expired, version := j.version + 1, updatedAt := now, updatedBy := Text("import-cleaner")))
    else None
  }

  /** How far a job still is from its last status; every change except a retry lowers it. */
  function Rank(s: Status): nat {
    match s
    case Uploading => 8
    case Queued => 7
    case Validating => 6
    case Ready => 5
    case ApplyQueued => 4
    case Applying => 3
    case Failed => 2
    case ValidationFailed => 2
    case Canceled => 1
    case Succeeded => 1
    case Expired => 0
  }

  /** The lifecycle diagram of the service: which statuses a change may connect. */
  predicate Edge(from: Status, c: Change, to: Status) {
    match c
    case CreatedChange => false
    case RequestedChange => from == Uploading && to == Queued
    case CanceledChange => Cancelable(from) && to == Canceled
    case RetriedChange => Retryable(from) && to == Uploading
    case ApplyRequestedChange => from == Ready && to == ApplyQueued
    case ValidationClaimed => from == Queued && to == Validating
    case ValidatedChange => from == Validating && to == Ready
    case ValidationFailedChange => from == Validating && to == ValidationFailed
    case ApplyClaimed => from == ApplyQueued && to == Applying
    case SucceededChange => from == Applying && to == Succeeded
    case FailedChange => (from == Validating || from == Applying) && to == Failed
    case ExpiredChange => Sweepable(from) && to == Expired
  }

  /** What never changes in the life of a row. */
  predicate SameIdentity(a: Job, b: Job) {
    && b.id == a.id && b.scope == a.scope && b.dataset == a.dataset && b.service == a.service
    && b.format == a.format && b.createdAt == a.createdAt && b.createdBy == a.createdBy
    && b.sourceKey == SourceObject(a.scope, a.id, a.format)
    && b.normalizedKey == NormalizedObject(a.scope, a.id)
    && b.reportKey == ReportObject(a.scope, a.id)
  }

  /** A change from row `a` to row `b`: along an edge, one version further, and touching the
      counters and keys only where that change is meant to. */
  predicate Legal(a: Job, c: Change, b: Job) {
    && Edge(a.status, c, b.status)
    && b.version == a.version + 1
    && SameIdentity(a, b)
    && (c != RetriedChange ==> b.idempotencyKey == a.idempotencyKey)
    && (if c == RetriedChange then b.confirmKey == EMPTY
        else if c == ApplyRequestedChange then b.confirmKey != EMPTY
        else b.confirmKey == a.confirmKey)
    && (if c == RetriedChange then ZeroCounts(b)
        else if c == ValidatedChange || c == ValidationFailedChange then
          Balanced(b.total, b.valid, b.invalid) && (c == ValidatedChange <==> b.invalid == 0)
        else SameCounts(a, b))
    && (if c == RetriedChange then b.applied == 0
        else c != SucceededChange ==> b.applied == a.applied)
  }
}
