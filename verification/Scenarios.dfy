/** Building blocks of concrete runs: one job, and what its users and workers do to it. */
module Scenarios {
  import opened Rows
  import opened Jobs
  import opened Providers
  import opened Protocol
  import opened Runs
  import opened EndToEnd
  import opened Effects

  const JOB := Text("job")
  const ACTOR := Text("user")
  const TENANT := Scope(Text("tenant"), Text("application"))
  const FILE := NormalizedObject(TENANT, JOB)

  /** What the actors of a run keep to. */
  datatype Rule = Anything | OwnVersions | NoSurvivors

  predicate Always(s: State, step: Step) { true }

  predicate OwnsIfOpen(s: State, c: nat) {
    c < |s.claims| && s.claims[c].open && s.claims[c].id in s.rows ==> s.rows[s.claims[c].id].version == s.claims[c].version
  }

  /** A worker finishes only while the row has the version of its claim. */
  predicate OwnFinish(s: State, step: Step) {
    (step.FinishValidationStep? ==> OwnsIfOpen(s, step.claim)) && (step.FinishApplyStep? ==> OwnsIfOpen(s, step.claim))
  }

  function Obeying(rule: Rule): (State, Step) -> bool {
    match rule
    case Anything => Always
    case OwnVersions => OwnFinish
    case NoSurvivors => NoSurvivor
  }

  /** Where the job and its claims stand, as far as the next steps look. */
  ghost predicate Stands(rule: Rule, s: State, status: Status, version: int, claims: nat) {
    && ReachedAlong(Obeying(rule), s) && JOB in s.rows && (forall id :: id in s.rows ==> id == JOB)
    && s.rows[JOB].scope == TENANT && s.rows[JOB].id == JOB && s.rows[JOB].normalizedKey == FILE
    && s.rows[JOB].status == status && s.rows[JOB].version == version
    && |s.claims| == claims
  }

  ghost predicate Holds(s: State, c: nat, kind: Kind) {
    c < |s.claims| && var k := s.claims[c]; k.open && k.kind == kind && k.id == JOB && k.scope == TENANT && k.key == FILE
  }

  ghost predicate Fresh(s: State, c: nat, kind: Kind) {
    && Holds(s, c, kind) && s.claims[c].report == None && s.claims[c].input == None
    && s.claims[c].calls == [] && s.claims[c].answered == 0
  }

  /** Nothing is sent and nothing arrives. */
  ghost predicate Silence(s: State, s': State) {
    s'.sent == s.sent && s'.arrived == s.arrived
  }

  ghost predicate LastEvent(s: State, change: Change) {
    && |s.outbox| > 0 && s.outbox[|s.outbox| - 1].change == change
    && s.outbox[|s.outbox| - 1].job.id == JOB && s.outbox[|s.outbox| - 1].job.scope == TENANT
  }

  lemma FirstJob(rule: Rule) returns (s: State)
    ensures Stands(rule, s, Uploading, 1, 0) && s.rows[JOB].uploadExpires == Some(1)
    ensures Silence(INIT, s)
  {
    var create := CreateStep(JOB, TENANT, EMPTY, EMPTY, EMPTY, Text("first"), 1, 0, ACTOR);
    AlongInit(Obeying(rule));
    AlongNext(Obeying(rule), INIT, create);
    s := Next(INIT, create);
  }

  /** A worker claims the job on the last event. */
  lemma WorkerClaims(rule: Rule, s: State, version: int, kind: Kind) returns (s': State)
    requires Stands(rule, s, if kind == Validation then Queued else ApplyQueued, version, |s.claims|)
    requires LastEvent(s, if kind == Validation then RequestedChange else ApplyRequestedChange)
    ensures Stands(rule, s', ClaimStatus(kind), version + 1, |s.claims| + 1)
    ensures s'.rows[JOB].valid == s.rows[JOB].valid && s'.rows[JOB].total == s.rows[JOB].total
    ensures s'.claims[..|s.claims|] == s.claims && Fresh(s', |s.claims|, kind) && s'.claims[|s.claims|].version == version + 1
    ensures s'.objects == s.objects
    ensures Silence(s, s')
  {
    var deliver := DeliverStep(|s.outbox| - 1, 0);
    s' := TakeClaim(s, JOB, TENANT, kind, 0);
    assert s' == Next(s, deliver);
    AlongNext(Obeying(rule), s, deliver);
  }

  /** A user completes the upload, and a worker claims the validation. */
  lemma UploadAndClaim(rule: Rule, s: State, version: int) returns (s': State)
    requires Stands(rule, s, Uploading, version, |s.claims|)
    ensures Stands(rule, s', Validating, version + 2, |s.claims| + 1) && s'.claims[..|s.claims|] == s.claims
    ensures Fresh(s', |s.claims|, Validation) && s'.claims[|s.claims|].version == version + 2
    ensures Silence(s, s')
  {
    var up := CompleteUploadStep(JOB, TENANT, version, 1, ACTOR, 0, ACTOR);
    var s1 := Next(s, up);
    AlongNext(Obeying(rule), s, up);
    s' := WorkerClaims(rule, s1, version + 1, Validation);
  }

  /** The user retries a job that has failed or was canceled. */
  lemma UserRetries(rule: Rule, s: State, status: Status, version: int) returns (s': State)
    requires Stands(rule, s, status, version, |s.claims|) && (status.Failed? || status.Canceled?)
    requires rule != NoSurvivors || forall c :: 0 <= c < |s.claims| ==> !s.claims[c].open
    ensures Stands(rule, s', Uploading, version + 1, |s.claims|) && s'.claims == s.claims
    ensures Silence(s, s')
  {
    var retry := RetryStep(JOB, TENANT, version, Text("again"), 1, 0, ACTOR);
    s' := Next(s, retry);
    AlongNext(Obeying(rule), s, retry);
  }

  /** The user cancels while the worker is running, and retries. */
  lemma CancelAndRetry(rule: Rule, s: State, version: int) returns (s': State)
    requires rule != NoSurvivors && Stands(rule, s, Validating, version, |s.claims|)
    ensures Stands(rule, s', Uploading, version + 2, |s.claims|) && s'.claims == s.claims
    ensures Silence(s, s')
  {
    var cancel := CancelStep(JOB, TENANT, version, 0, ACTOR);
    var s1 := Next(s, cancel);
    AlongNext(Obeying(rule), s, cancel);
    s' := UserRetries(rule, s1, Canceled, version + 1);
  }

  /** A validation worker stores its file, whatever the job has become in the meantime. */
  lemma WorkerStores(rule: Rule, s: State, status: Status, version: int, c: nat, rows: seq<Row>) returns (s': State)
    requires Stands(rule, s, status, version, |s.claims|) && Fresh(s, c, Validation)
    ensures Stands(rule, s', status, version, |s.claims|) && s'.rows == s.rows
    ensures s'.claims == s.claims[c := s.claims[c].(report := Some(Report(Counts(|rows|, |rows|, 0), rows)))]
    ensures FILE in s'.objects && s'.objects[FILE] == rows
    ensures Silence(s, s')
  {
    var store := StoreNormalizedStep(c, Report(Counts(|rows|, |rows|, 0), rows));
    s' := Next(s, store);
    AlongNext(Obeying(rule), s, store);
  }

  lemma WorkerFinishesValidation(rule: Rule, s: State, version: int, c: nat, rows: seq<Row>) returns (s': State)
    requires Stands(rule, s, Validating, version, |s.claims|) && Holds(s, c, Validation)
    requires s.claims[c].report == Some(Report(Counts(|rows|, |rows|, 0), rows))
    requires rule == OwnVersions ==> s.claims[c].version == version
    ensures Stands(rule, s', Ready, version + 1, |s.claims|) && s'.objects == s.objects
    ensures s'.rows[JOB].valid == |rows| == s'.rows[JOB].total
    ensures s'.claims == s.claims[c := s.claims[c].(open := false)]
    ensures Silence(s, s')
  {
    var finish := FinishValidationStep(c, 1, 0);
    s' := Next(s, finish);
    AlongNext(Obeying(rule), s, finish);
  }

  lemma UserConfirms(rule: Rule, s: State, version: int) returns (s': State)
    requires Stands(rule, s, Ready, version, |s.claims|)
    ensures Stands(rule, s', ApplyQueued, version + 1, |s.claims|) && LastEvent(s', ApplyRequestedChange)
    ensures s'.rows[JOB].valid == s.rows[JOB].valid && s'.rows[JOB].total == s.rows[JOB].total
    ensures s'.objects == s.objects && s'.claims == s.claims
    ensures Silence(s, s')
  {
    AlongReached(Obeying(rule), s);
    RowsAreSound(s, JOB);
    var confirm := ConfirmStep(JOB, TENANT, version, Text("yes"), 0, ACTOR);
    AlongNext(Obeying(rule), s, confirm);
    s' := Next(s, confirm);
  }

  /** The apply worker loads whatever the object holds. */
  lemma WorkerLoads(rule: Rule, s: State, version: int, c: nat) returns (s': State)
    requires Stands(rule, s, Applying, version, |s.claims|) && Fresh(s, c, Apply) && FILE in s.objects
    ensures Stands(rule, s', Applying, version, |s.claims|) && s'.rows == s.rows
    ensures s'.claims == s.claims[c := s.claims[c].(input := Some(s.objects[FILE]))]
    ensures Silence(s, s')
  {
    AlongNext(Obeying(rule), s, LoadNormalizedStep(c));
    s' := Next(s, LoadNormalizedStep(c));
  }

  /** What the finish statement makes of the job. */
  lemma FinishedApply(s: State, c: nat)
    requires JOB in s.rows && s.rows[JOB].scope == TENANT && s.rows[JOB].id == JOB && s.rows[JOB].status == Applying
    requires Holds(s, c, Apply) && AllAnswered(s.claims[c])
    ensures var s', rows := Next(s, FinishApplyStep(c, 1, 0)), s.claims[c].input.value;
      && JOB in s'.rows && s'.rows == s.rows[JOB := s'.rows[JOB]] && s'.sent == s.sent && s'.arrived == s.arrived
      && s'.rows[JOB] == s.rows[JOB].(status := Succeeded, applied := |rows|, progress := 100, completed := Some(0),
                                      resultExpires := Some(1), version := s.rows[JOB].version + 1,
                                      updatedAt := 0, updatedBy := Text("import-worker"))
      && JOB in s'.history && s'.history[JOB] != [] && s'.history[JOB][|s'.history[JOB]| - 1].rows == rows
      && |s'.claims| == |s.claims|
  {
  }

  lemma WorkerFinishesApply(rule: Rule, s: State, version: int, c: nat) returns (s': State)
    requires Stands(rule, s, Applying, version, |s.claims|) && Holds(s, c, Apply) && AllAnswered(s.claims[c])
    requires rule == OwnVersions ==> s.claims[c].version == version
    ensures Stands(rule, s', Succeeded, version + 1, |s.claims|)
    ensures s'.rows[JOB].valid == s.rows[JOB].valid && s'.rows[JOB].total == s.rows[JOB].total
    ensures s'.rows[JOB].applied == |s.claims[c].input.value|
    ensures JOB in s'.history && s'.history[JOB] != [] && s'.history[JOB][|s'.history[JOB]| - 1].rows == s.claims[c].input.value
    ensures Silence(s, s')
    ensures Later(s, s')
  {
    LaterSelf(s);
    LaterNext(s, s, FinishApplyStep(c, 1, 0));
    AlongNext(Obeying(rule), s, FinishApplyStep(c, 1, 0));
    FinishedApply(s, c);
    s' := Next(s, FinishApplyStep(c, 1, 0));
  }

  lemma WorkerFailsApply(rule: Rule, s: State, version: int, c: nat) returns (s': State)
    requires Stands(rule, s, Applying, version, |s.claims|) && Holds(s, c, Apply)
    ensures Stands(rule, s', Failed, version + 1, |s.claims|) && s'.claims == s.claims[c := s.claims[c].(open := false)]
    ensures Silence(s, s')
  {
    var fail := FailStep(c, ACTOR, ACTOR, 1, 0);
    AlongNext(Obeying(rule), s, fail);
    s' := Next(s, fail);
  }

  // ---- the provider ----

  /** The only batch of a file. */
  function OnlyBatch(rows: seq<Row>): Message {
    ApplyRows(TENANT, EMPTY, JOB, 1, rows, Key(JOB, 1))
  }

  /** Everything but the messages and the claims is the same. */
  ghost predicate SameTables(s: State, s': State) {
    s'.rows == s.rows && s'.outbox == s.outbox && s'.objects == s.objects && s'.history == s.history
  }

  /** A worker sends its only batch, whatever the job has become in the meantime. */
  lemma WorkerSends(rule: Rule, s: State, status: Status, version: int, c: nat, rows: seq<Row>) returns (s': State)
    requires Stands(rule, s, status, version, |s.claims|) && Holds(s, c, Apply)
    requires s.claims[c].input == Some(rows) && s.claims[c].calls == [] && s.claims[c].answered == 0
    ensures Stands(rule, s', status, version, |s.claims|) && SameTables(s, s')
    ensures s'.sent == s.sent + [OnlyBatch(rows)] && s'.arrived == s.arrived
    ensures s'.claims == s.claims[c := s.claims[c].(calls := [OnlyBatch(rows)])]
    ensures Later(s, s')
  {
    var send := SendStep(c, OnlyBatch(rows));
    assert [] + [OnlyBatch(rows)] == [OnlyBatch(rows)];
    s' := Next(s, send);
    LaterSelf(s);
    LaterNext(s, s, send);
    AlongNext(Obeying(rule), s, send);
  }

  lemma MessageArrives(rule: Rule, s: State, status: Status, version: int, i: nat) returns (s': State)
    requires Stands(rule, s, status, version, |s.claims|) && i < |s.sent|
    ensures Stands(rule, s', status, version, |s.claims|) && SameTables(s, s') && s'.claims == s.claims
    ensures s'.sent == s.sent && s'.arrived == s.arrived + [s.sent[i]]
    ensures Commits(s') == Deliver(Commits(s), s.sent[i])
    ensures Later(s, s')
  {
    s' := Next(s, ArriveStep(i));
    DeliverSnoc([], s.arrived, s.sent[i]);
    LaterSelf(s);
    LaterNext(s, s, ArriveStep(i));
    AlongNext(Obeying(rule), s, ArriveStep(i));
  }

  lemma WorkerIsAnswered(rule: Rule, s: State, status: Status, version: int, c: nat, rows: seq<Row>) returns (s': State)
    requires Stands(rule, s, status, version, |s.claims|) && Holds(s, c, Apply)
    requires s.claims[c].calls == [OnlyBatch(rows)] && s.claims[c].answered == 0 && OnlyBatch(rows) in s.arrived
    ensures Stands(rule, s', status, version, |s.claims|) && SameTables(s, s') && Silence(s, s')
    ensures s'.claims == s.claims[c := s.claims[c].(answered := 1)]
    ensures Later(s, s')
  {
    LaterSelf(s);
    LaterNext(s, s, AnswerStep(c));
    AlongNext(Obeying(rule), s, AnswerStep(c));
    s' := Next(s, AnswerStep(c));
  }

  /** A worker sends its only batch, gets its answer and finishes. */
  lemma WorkerApplies(rule: Rule, s: State, version: int, c: nat, rows: seq<Row>) returns (s': State)
    requires Stands(rule, s, Applying, version, |s.claims|) && Holds(s, c, Apply)
    requires s.claims[c].input == Some(rows) && s.claims[c].calls == [] && s.claims[c].answered == 0
    requires rule == OwnVersions ==> s.claims[c].version == version
    ensures Stands(rule, s', Succeeded, version + 1, |s.claims|)
    ensures s'.rows[JOB].valid == s.rows[JOB].valid && s'.rows[JOB].total == s.rows[JOB].total
    ensures s'.rows[JOB].applied == |rows| && Commits(s') == Deliver(Commits(s), OnlyBatch(rows))
    ensures JOB in s'.history && s'.history[JOB] != [] && s'.history[JOB][|s'.history[JOB]| - 1].rows == rows
    ensures Later(s, s')
  {
    var s1 := WorkerSends(rule, s, Applying, version, c, rows);
    var s2 := MessageArrives(rule, s1, Applying, version, |s.sent|);
    assert s2.arrived[|s.arrived|] == OnlyBatch(rows);
    var s3 := WorkerIsAnswered(rule, s2, Applying, version, c, rows);
    assert s3.claims[c].calls[..0] == [];
    s' := WorkerFinishesApply(rule, s3, version, c);
    LaterTrans(s, s1, s2);
    LaterTrans(s, s2, s3);
    LaterTrans(s, s3, s');
  }

  /** The user cancels while the apply worker is running. */
  lemma CancelApply(rule: Rule, s: State, version: int) returns (s': State)
    requires Stands(rule, s, Applying, version, |s.claims|)
    ensures Stands(rule, s', Canceled, version + 1, |s.claims|) && s'.claims == s.claims
    ensures Silence(s, s')
  {
    var cancel := CancelStep(JOB, TENANT, version, 0, ACTOR);
    s' := Next(s, cancel);
    AlongNext(Obeying(rule), s, cancel);
  }

  /** The first half of an attempt: the file is uploaded and validated. */
  lemma ValidatedAttempt(rule: Rule, s: State, version: int, rows: seq<Row>) returns (s': State)
    requires Stands(rule, s, Uploading, version, |s.claims|)
    ensures Stands(rule, s', Ready, version + 3, |s.claims| + 1) && Silence(s, s')
    ensures s'.rows[JOB].valid == |rows| == s'.rows[JOB].total && FILE in s'.objects && s'.objects[FILE] == rows
    ensures s'.claims[..|s.claims|] == s.claims && !s'.claims[|s.claims|].open
  {
    var n := |s.claims|;
    var s1 := UploadAndClaim(rule, s, version);
    var s2 := WorkerStores(rule, s1, Validating, version + 2, n, rows);
    s' := WorkerFinishesValidation(rule, s2, version + 2, n, rows);
  }

  /** One attempt up to the point where its worker has loaded the rows to apply. */
  lemma Attempt(rule: Rule, s: State, version: int, rows: seq<Row>) returns (s': State)
    requires Stands(rule, s, Uploading, version, |s.claims|)
    ensures Stands(rule, s', Applying, version + 5, |s.claims| + 2)
    ensures s'.rows[JOB].valid == |rows| == s'.rows[JOB].total
    ensures Holds(s', |s.claims| + 1, Apply) && s'.claims[|s.claims| + 1].input == Some(rows)
    ensures s'.claims[|s.claims| + 1].calls == [] && s'.claims[|s.claims| + 1].answered == 0
    ensures s'.claims[|s.claims| + 1].version == version + 5
    ensures s'.claims[..|s.claims|] == s.claims && !s'.claims[|s.claims|].open && Silence(s, s')
  {
    var n := |s.claims|;
    var s1 := ValidatedAttempt(rule, s, version, rows);
    var s2 := UserConfirms(rule, s1, version + 3);
    var s3 := WorkerClaims(rule, s2, version + 4, Apply);
    assert s3.claims[..n + 1] == s1.claims && s3.claims[n] == s1.claims[n];
    s' := WorkerLoads(rule, s3, version + 5, n + 1);
    assert s'.claims[..n] == s1.claims[..n];
  }
}
