/** What the protocol promises over every run: any steps, by any actors, in any order. */
module Runs {
  import opened Rows
  import opened Jobs
  import opened Histories
  import opened Protocol
  import opened Hiding

  /** `s'` is the state after `steps` from `s`. It stands behind a quantifier so that runs are unfolded
      only where `RunOf` asks for it. */
  ghost predicate After(s: State, steps: seq<Step>, s': State) {
    forall k {:trigger Asked(k)} :: Asked(k) ==> s' == Run(s, steps)
  }

  lemma RunOf(s: State, steps: seq<Step>, s': State)
    requires After(s, steps, s')
    ensures s' == Run(s, steps)
  {
    assert Asked(0);
  }

  lemma RunSnoc(s: State, steps: seq<Step>, s': State, step: Step)
    requires After(s, steps, s')
    ensures After(s, steps + [step], Next(s', step))
  {
    RunOf(s, steps, s');
    assert (steps + [step])[..|steps|] == steps;
  }

  /** `s` is the state after some run. */
  ghost predicate Reached(s: State) {
    exists steps :: After(INIT, steps, s)
  }

  lemma ReachedInv(s: State)
    requires Reached(s)
    ensures Inv(s)
  {
    var steps :| After(INIT, steps, s);
    RunOf(INIT, steps, s);
    assert Inv(INIT) by {
      forall id ensures JobInv(INIT, id) {}
    }
    RunKeeps(INIT, steps);
  }

  /** Every step of the run from the start satisfies `p` in the state it is taken in. */
  ghost predicate Along(p: (State, Step) -> bool, steps: seq<Step>) {
    steps == [] || (Along(p, steps[..|steps| - 1]) && p(Run(INIT, steps[..|steps| - 1]), steps[|steps| - 1]))
  }

  ghost predicate ReachedAlong(p: (State, Step) -> bool, s: State) {
    exists steps :: After(INIT, steps, s) && Along(p, steps)
  }

  lemma AlongInit(p: (State, Step) -> bool)
    ensures ReachedAlong(p, INIT)
  {
    assert After(INIT, [], INIT) && Along(p, []);
  }

  lemma AlongNext(p: (State, Step) -> bool, s: State, step: Step)
    requires ReachedAlong(p, s) && p(s, step)
    ensures ReachedAlong(p, Next(s, step))
  {
    var steps :| After(INIT, steps, s) && Along(p, steps);
    RunOf(INIT, steps, s);
    RunSnoc(INIT, steps, s, step);
    assert (steps + [step])[..|steps|] == steps;
    assert Along(p, steps + [step]);
  }

  lemma AlongReached(p: (State, Step) -> bool, s: State)
    requires ReachedAlong(p, s)
    ensures Reached(s)
  {
    var steps :| After(INIT, steps, s) && Along(p, steps);
  }

  lemma LaterSelf(s: State)
    ensures Later(s, s)
  {
    assert After(s, [], s);
  }

  lemma LaterNext(s: State, s': State, step: Step)
    requires Later(s, s')
    ensures Later(s, Next(s', step))
  {
    var more :| After(s, more, s');
    RunSnoc(s, more, s', step);
  }

  // ---- single states ----

  /** Counters, keys and statuses of every row agree in every reachable state. */
  lemma RowsAreSound(s: State, id: Id)
    requires Reached(s) && id in s.rows
    ensures var j := s.rows[id];
      && j.total == j.valid + j.invalid && 0 <= j.valid && 0 <= j.invalid
      && (j.status.Ready? || j.status.ApplyQueued? || j.status.Applying? || j.status.Succeeded? ==> j.invalid == 0)
      && (j.status.ValidationFailed? ==> j.invalid > 0)
      && (j.status.ApplyQueued? || j.status.Applying? || j.status.Succeeded? ==> j.confirmKey != EMPTY)
      && (j.status.Uploading? || j.status.Queued? || j.status.Validating? || j.status.ValidationFailed? || j.status.Ready?
          ==> j.confirmKey == EMPTY)
  {
    ReachedInv(s);
    RowFacts(s, id);
  }

  /** Every attempt is bounded: nine versions for the first, eight more for each retry. */
  lemma LifetimeIsBounded(s: State, id: Id)
    requires Reached(s) && id in s.rows
    ensures s.rows[id].version + Rank(s.rows[id].status) <= 9 + 8 * Retries(Past(s, id))
  {
    ReachedInv(s);
    assert JobInv(s, id);
    BoundedLifetime(s.history[id]);
  }

  /** Outbox accounting: each version of a row except creation and claims has exactly one event. */
  lemma OutboxAccounts(s: State, id: Id)
    requires Reached(s) && id in s.rows
    ensures EventsOf(s.outbox, id) == s.rows[id].version - 1 - Count(Past(s, id), IsClaim)
  {
    ReachedInv(s);
    assert JobInv(s, id);
    AnnouncedVersions(s.history[id]);
  }

  /** Each event is the row as its own change left it, and no later than the row as it is now. */
  lemma EventsAreSnapshots(s: State, i: nat)
    requires Reached(s) && i < |s.outbox|
    ensures var e := s.outbox[i];
      && e.job.id in s.history && 1 < e.job.version <= |s.history[e.job.id]|
      && e.change == s.history[e.job.id][e.job.version - 1].change
      && e.job == s.history[e.job.id][e.job.version - 1].job
  {
    ReachedInv(s);
    assert EventInv(s, i) && JobInv(s, s.outbox[i].job.id);
  }

  /** The events of a job are written in the order of its versions. */
  lemma EventsAreOrdered(s: State, i: nat, j: nat)
    requires Reached(s) && i < j < |s.outbox| && s.outbox[i].job.id == s.outbox[j].job.id
    ensures s.outbox[i].job.version < s.outbox[j].job.version
  {
    ReachedInv(s);
    assert EventOrder(s, i, j);
  }

  /** Deliveries are absorbed: in any run, with any events delivered any number of times and in any
      order, the claims of a job do not outnumber its completed uploads and its confirmations. */
  lemma DeliveriesAreAbsorbed(s: State, id: Id)
    requires Reached(s) && id in s.history
    ensures Count(s.history[id], IsValidationClaim) <= Count(s.history[id], IsRequest)
    ensures Count(s.history[id], IsApplyClaim) <= Count(s.history[id], IsApplyRequest)
  {
    ReachedInv(s);
    assert JobInv(s, id);
    ClaimsAreRequested(s.history[id]);
  }

  /** Two claims of one kind on one job belong to different attempts. */
  lemma OneClaimPerAttempt(s: State, c: nat, d: nat)
    requires Reached(s)
    requires c < d < |s.claims| && s.claims[c].id == s.claims[d].id && s.claims[c].kind == s.claims[d].kind
    ensures var v, w := s.claims[c].version, s.claims[d].version;
      && s.claims[c].id in s.history && 1 <= v < w <= |s.history[s.claims[c].id]|
      && !NoRetry(s.history[s.claims[c].id], v - 1, w - 1)
  {
    ReachedInv(s);
    ClaimsDiffer(s, c, d);
  }

  lemma ClaimsDiffer(s: State, c: nat, d: nat)
    requires Inv(s) && c < d < |s.claims| && s.claims[c].id == s.claims[d].id && s.claims[c].kind == s.claims[d].kind
    ensures var v, w := s.claims[c].version, s.claims[d].version;
      && s.claims[c].id in s.history && 1 <= v < w <= |s.history[s.claims[c].id]|
      && !NoRetry(s.history[s.claims[c].id], v - 1, w - 1)
  {
    assert ClaimInv(s, c) && ClaimInv(s, d) && ClaimOrder(s, c, d);
    assert JobInv(s, s.claims[c].id);
    OncePerAttempt(s.history[s.claims[c].id], s.claims[c].version - 1, s.claims[d].version - 1);
  }

  /** The unique index holds of every reachable table. */
  lemma KeysAreUnique(s: State, a: Id, b: Id)
    requires Reached(s) && a in s.rows && b in s.rows && a != b
    ensures !(s.rows[a].scope == s.rows[b].scope && s.rows[a].idempotencyKey == s.rows[b].idempotencyKey)
  {
    ReachedInv(s);
    assert KeyInv(s, a, b);
  }

  // ---- single steps ----

  /** One row changed, one record of it, and one event carrying the new row if it is announced. */
  ghost predicate CommitShape(s: State, s': State, change: Change, j: Job, rows: seq<Row>) {
    && (if change == CreatedChange then j.id !in s.history
        else j.id in s.rows && j.version == s.rows[j.id].version + 1)
    && s'.rows == s.rows[j.id := j]
    && s'.outbox == (if IsAnnounced(change) then s.outbox + [Event(change, j)] else s.outbox)
    && s'.history == s.history[j.id := Past(s, j.id) + [Entry(change, j, rows)]]
  }

  /** One change was committed: the creation of a job, or the change of an existing row. */
  ghost predicate Committed(s: State, s': State, created: bool) {
    exists change: Change, j: Job, rows: seq<Row> :: (change == CreatedChange <==> created) && CommitShape(s, s', change, j, rows)
  }

  ghost predicate Untouched(s: State, s': State) {
    s'.rows == s.rows && s'.outbox == s.outbox && s'.history == s.history
  }

  lemma CommitIfShape(s: State, s1: State, change: Change, updated: Option<Job>, rows: seq<Row>, id: Id)
    requires Untouched(s, s1) && change != CreatedChange
    requires updated.Some? ==> id in s.rows && updated.value.id == id && updated.value.version == s.rows[id].version + 1
    ensures Untouched(s, CommitIf(s1, change, updated, rows)) || Committed(s, CommitIf(s1, change, updated, rows), false)
  {
    if updated.Some? {
      assert CommitShape(s, CommitIf(s1, change, updated, rows), change, updated.value, rows);
    }
  }

  lemma TakeClaimShape(s: State, id: Id, scope: Scope, kind: Kind, now: Time)
    requires Inv(s)
    ensures Untouched(s, TakeClaim(s, id, scope, kind, now)) || Committed(s, TakeClaim(s, id, scope, kind, now), false)
  {
    RowFacts(s, id);
    var updated := Claiming(s, id, scope, kind, now);
    if updated.Some? {
      assert CommitShape(s, TakeClaim(s, id, scope, kind, now), ClaimChange(kind), updated.value, []);
    }
  }

  lemma UntouchedStep(s: State, step: Step)
    requires step.DeleteObjectStep? || step.StoreNormalizedStep? || step.LoadNormalizedStep? || step.SendStep?
          || step.AnswerStep? || step.ArriveStep? || step.AbandonStep?
    ensures Untouched(s, Next(s, step))
  {
  }

  /** All or nothing: an outbox event appears exactly when a row changes in a way that is
      announced, and then it carries the new row. */
  lemma RowAndEventTogether(s: State, step: Step)
    requires Inv(s)
    ensures var s' := Next(s, step);
      || Untouched(s, s')
      || Committed(s, s', step.CreateStep?)
      || (step.PurgeStep? && s'.rows == s.rows - {step.id} && s'.outbox == s.outbox && s'.history == s.history)
  {
    match step
    case CreateStep(id, scope, dataset, service, format, key, expires, now, actor) =>
      if Next(s, step) != s {
        assert CommitShape(s, Next(s, step), CreatedChange, NewJob(id, scope, dataset, service, format, key, expires, now, actor), []);
      }
    case DeliverStep(event, now) =>
      if event < |s.outbox| {
        TakeClaimShape(s, s.outbox[event].job.id, s.outbox[event].job.scope, Validation, now);
        TakeClaimShape(s, s.outbox[event].job.id, s.outbox[event].job.scope, Apply, now);
      }
    case PurgeStep(_, _, _, _) =>
    case DeleteObjectStep(_) => UntouchedStep(s, step);
    case StoreNormalizedStep(_, _) => UntouchedStep(s, step);
    case LoadNormalizedStep(_) => UntouchedStep(s, step);
    case SendStep(_, _) => UntouchedStep(s, step);
    case AnswerStep(_) => UntouchedStep(s, step);
    case ArriveStep(_) => UntouchedStep(s, step);
    case AbandonStep(_) => UntouchedStep(s, step);
    case FinishValidationStep(_, _, _) => FinishShape(s, step);
    case FinishApplyStep(_, _, _) => FinishShape(s, step);
    case FailStep(_, _, _, _, _) => FinishShape(s, step);
    case _ => RequestShape(s, step);
  }

  lemma RequestShape(s: State, step: Step)
    requires Inv(s)
    requires step.CompleteUploadStep? || step.CancelStep? || step.RetryStep? || step.ConfirmStep? || step.ExpireStep?
    ensures Untouched(s, Next(s, step)) || Committed(s, Next(s, step), false)
  {
    RowFacts(s, step.id);
    match step
    case CompleteUploadStep(id, scope, expected, bytes, checksum, now, actor) =>
      CommitIfShape(s, s, RequestedChange, Completing(s, id, scope, expected, bytes, checksum, now, actor), [], id);
    case CancelStep(id, scope, expected, now, actor) =>
      CommitIfShape(s, s, CanceledChange, Canceling(s, id, scope, expected, now, actor), [], id);
    case RetryStep(id, scope, expected, key, expires, now, actor) =>
      CommitIfShape(s, s, RetriedChange, Retrying(s, id, scope, expected, key, expires, now, actor), [], id);
    case ConfirmStep(id, scope, expected, key, now, actor) =>
      CommitIfShape(s, s, ApplyRequestedChange, Confirming(s, id, scope, expected, key, now, actor), [], id);
    case ExpireStep(id, scope, listed, now) =>
      CommitIfShape(s, s, ExpiredChange, Expiring(s, id, scope, listed, now), [], id);
  }

  lemma FinishShape(s: State, step: Step)
    requires Inv(s)
    requires step.FinishValidationStep? || step.FinishApplyStep? || step.FailStep?
    ensures Untouched(s, Next(s, step)) || Committed(s, Next(s, step), false)
  {
    if step.claim < |s.claims| {
      var c := s.claims[step.claim];
      RowFacts(s, c.id);
      match step
      case FinishValidationStep(i, expires, now) =>
        if c.report.Some? {
          var r := c.report.value;
          CommitIfShape(s, Close(s, i), ReportChange(r),
                        FinishingValidation(s, c, r, expires, now), r.normalized, c.id);
        }
      case FinishApplyStep(i, expires, now) =>
        if c.input.Some? {
          CommitIfShape(s, Close(s, i), SucceededChange, FinishingApply(s, c, c.input.value, expires, now), c.input.value, c.id);
        }
      case FailStep(i, code, message, expires, now) =>
        CommitIfShape(s, Close(s, i), FailedChange, Failing(s, c, code, message, expires, now), [], c.id);
    }
  }

  /** Only a purge removes a row: an expired one, at the listed version, older than the cutoff. */
  lemma OnlyPurgeRemoves(s: State, step: Step, id: Id)
    requires id in s.rows && id !in Next(s, step).rows
    ensures step.PurgeStep? && step.id == id && s.rows[id].status == Expired
    ensures s.rows[id].version == step.version && s.rows[id].updatedAt < step.before
  {
  }

  // ---- pairs of states of one run ----

  /** No step rewrites the past of a job. */
  lemma NextGrows(s: State, step: Step)
    requires Inv(s)
    ensures forall id :: id in s.history ==> id in Next(s, step).history && s.history[id] <= Next(s, step).history[id]
  {
    RowAndEventTogether(s, step);
  }

  /** Histories only grow. */
  lemma {:induction false} RunGrows(s: State, steps: seq<Step>)
    requires Inv(s)
    ensures Inv(Run(s, steps))
    ensures forall id :: id in s.history ==> id in Run(s, steps).history && s.history[id] <= Run(s, steps).history[id]
  {
    RunKeeps(s, steps);
    if steps != [] {
      RunGrows(s, steps[..|steps| - 1]);
      NextGrows(Run(s, steps[..|steps| - 1]), steps[|steps| - 1]);
    }
  }

  /** No retry of `id` is committed between `s` and the later state `s'`. */
  ghost predicate SameAttempt(s: State, s': State, id: Id) {
    && id in s.history && id in s'.history
    && 0 < |s.history[id]| <= |s'.history[id]|
    && NoRetry(s'.history[id], |s.history[id]| - 1, |s'.history[id]| - 1)
  }

  /** `s'` is a state some time after `s` in the same run. */
  ghost predicate Later(s: State, s': State) {
    exists more :: After(s, more, s')
  }

  /** What links a job seen now and the same job seen later in the run. */
  lemma LaterRow(s: State, s': State, id: Id)
    requires Inv(s) && Later(s, s') && id in s.history
    ensures Inv(s') && id in s'.history && Chain(s'.history[id])
    ensures 0 < |s.history[id]| && s.history[id] <= s'.history[id]
    ensures id in s.rows ==> s.rows[id] == s'.history[id][|s.history[id]| - 1].job
    ensures id in s'.rows ==> s'.rows[id] == Last(s'.history[id])
  {
    var more :| After(s, more, s');
    RunOf(s, more, s');
    RunGrows(s, more);
    assert JobInv(s, id) && JobInv(s', id);
  }

  /** Within an attempt a status is visited once: seeing it twice is seeing the same row. */
  lemma SameStatusSameRow(s: State, s': State, id: Id)
    requires Reached(s) && Later(s, s') && id in s.rows && id in s'.rows && SameAttempt(s, s', id)
    requires s.rows[id].status == s'.rows[id].status
    ensures s.rows[id] == s'.rows[id]
  {
    ReachedInv(s);
    RowFacts(s, id);
    LaterRow(s, s', id);
    var h := s'.history[id];
    if |s.history[id]| < |h| { OncePerAttempt(h, |s.history[id]| - 1, |h| - 1); }
  }

  /** Cancel wins: until the next retry no worker changes the row; it stays as the user left it,
      until the cleaner expires or purges it. */
  lemma CancelHolds(s: State, s': State, id: Id)
    requires Reached(s) && Later(s, s') && id in s.rows && id in s'.rows && SameAttempt(s, s', id)
    requires s.rows[id].status == Canceled
    ensures s'.rows[id] == s.rows[id] || (s'.rows[id].status == Expired && s'.rows[id].version == s.rows[id].version + 1)
  {
    ReachedInv(s);
    RowFacts(s, id);
    LaterRow(s, s', id);
    var h := s'.history[id];
    CancelWins(h, |s.history[id]| - 1);
    assert |h| > 1 ==> Legal(h[|h| - 2].job, h[|h| - 1].change, h[|h| - 1].job);
  }

  /** Expired is final, for workers, users and cleaner alike. */
  lemma ExpiredHolds(s: State, s': State, id: Id)
    requires Reached(s) && Later(s, s') && id in s.rows && id in s'.rows && s.rows[id].status == Expired
    ensures s'.rows[id] == s.rows[id]
  {
    ReachedInv(s);
    RowFacts(s, id);
    LaterRow(s, s', id);
    ExpiredIsFinal(s'.history[id], |s.history[id]| - 1);
  }

  /** A purged job never comes back. */
  lemma GoneHolds(s: State, s': State, id: Id)
    requires Reached(s) && Later(s, s') && id in s.history && id !in s.rows
    ensures id !in s'.rows && id in s'.history
  {
    ReachedInv(s);
    var more :| After(s, more, s');
    RunOf(s, more, s');
    GoneRun(s, more, id);
  }

  lemma {:induction false} GoneRun(s: State, steps: seq<Step>, id: Id)
    requires Inv(s) && id in s.history && id !in s.rows
    ensures id !in Run(s, steps).rows && id in Run(s, steps).history
  {
    if steps != [] {
      var init := steps[..|steps| - 1];
      GoneRun(s, init, id);
      RunKeeps(s, init);
      RowAndEventTogether(Run(s, init), steps[|steps| - 1]);
    }
  }

  /** Confirming again with the same key, at any later point of the attempt and with any version,
      changes no row and writes no event. */
  lemma ConfirmRepeats(s0: State, confirm: Step, s: State, again: Step)
    requires Reached(s0) && confirm.ConfirmStep? && Next(s0, confirm) != s0
    requires Later(Next(s0, confirm), s) && SameAttempt(Next(s0, confirm), s, confirm.id)
    requires again.ConfirmStep? && again.id == confirm.id && again.key == confirm.key
    ensures Next(s, again) == s
  {
    ReachedInv(s0);
    NextKeeps(s0, confirm);
    ConfirmCommits(s0, confirm);
    KeyStays(Next(s0, confirm), s, confirm.id);
  }

  lemma KeyStays(s1: State, s: State, id: Id)
    requires Inv(s1) && Later(s1, s) && SameAttempt(s1, s, id) && id in s1.rows
    requires s1.history[id][|s1.history[id]| - 1].change == ApplyRequestedChange
    ensures id in s.rows ==> s.rows[id].confirmKey == s1.rows[id].confirmKey != EMPTY
  {
    LaterRow(s1, s, id);
    var h := s.history[id];
    ConfirmationSticks(h, |s1.history[id]| - 1, |h| - 1);
  }

  lemma ConfirmCommits(s: State, confirm: Step)
    requires Inv(s) && confirm.ConfirmStep? && Next(s, confirm) != s
    ensures var s', id := Next(s, confirm), confirm.id;
      && id in s'.history && s'.history[id] != [] && id in s'.rows
      && s'.history[id][|s'.history[id]| - 1] == Entry(ApplyRequestedChange, s'.rows[id], [])
      && s'.rows[id].confirmKey == confirm.key
  {
    RowFacts(s, confirm.id);
  }

  /** Creating again with the same tenant, application and key, while the job is neither re-keyed
      by a retry nor purged, never adds a row, and the row that holds the key is still the first one. */
  lemma CreateRepeats(s0: State, create: Step, s: State, again: Step)
    requires Reached(s0) && create.CreateStep? && Next(s0, create) != s0
    requires Later(Next(s0, create), s) && SameAttempt(Next(s0, create), s, create.id) && create.id in s.rows
    requires again.CreateStep? && again.scope == create.scope && again.key == create.key
    ensures Next(s, again) == s
    ensures forall id :: id in s.rows && s.rows[id].scope == create.scope && s.rows[id].idempotencyKey == create.key
                     <==> id == create.id
  {
    ReachedInv(s0);
    NextKeeps(s0, create);
    var s1, id := Next(s0, create), create.id;
    LaterRow(s1, s, id);
    var h := s.history[id];
    IdempotencyKeySticks(h, |s1.history[id]| - 1, |h| - 1);
    ScopeIsConstant(h, |h| - 1);
    ScopeIsConstant(h, |s1.history[id]| - 1);
    assert s.rows[id].scope == create.scope && s.rows[id].idempotencyKey == create.key;
    forall other | other in s.rows && other != id
      ensures !(s.rows[other].scope == create.scope && s.rows[other].idempotencyKey == create.key)
    {
      assert KeyInv(s, other, id);
    }
  }

  /** Who owns the row a finish or fail statement is about to change. The statement checks the
      status only; the row belongs to the attempt of the claim exactly when the version is still the
      one the claim created, which is the check the statement leaves out. */
  lemma OwnershipIsVersion(s: State, c: nat)
    requires Reached(s) && c < |s.claims| && s.claims[c].id in s.rows
    requires s.rows[s.claims[c].id].status == ClaimStatus(s.claims[c].kind)
    ensures var k := s.claims[c];
      && k.id in s.history && 1 <= k.version <= |s.history[k.id]|
      && (NoRetry(s.history[k.id], k.version - 1, |s.history[k.id]| - 1) <==> s.rows[k.id].version == k.version)
  {
    ReachedInv(s);
    var k := s.claims[c];
    assert ClaimInv(s, c) && JobInv(s, k.id);
    RowFacts(s, k.id);
    ClaimEntryStatus(s.history[k.id], k.version - 1, k.kind);
    if k.version < |s.history[k.id]| {
      OncePerAttempt(s.history[k.id], k.version - 1, |s.history[k.id]| - 1);
    }
  }

  /** A row that was listed earlier and is about to be expired is still the listed one if and only if its
      version is the listed one, which is the check the statement leaves out. */
  lemma ExpiresTheListed(s0: State, s: State, id: Id)
    requires Reached(s0) && Later(s0, s) && id in s0.rows && id in s.rows
    ensures s.rows[id] == s0.rows[id] <==> s.rows[id].version == s0.rows[id].version
  {
    ReachedInv(s0);
    RowFacts(s0, id);
    LaterRow(s0, s, id);
    RowFacts(s, id);
  }

  lemma ClaimEntryStatus(h: History, i: nat, kind: Kind)
    requires Chain(h) && i < |h| && h[i].change == ClaimChange(kind)
    ensures h[i].job.status == ClaimStatus(kind)
  {
    assert i > 0;
    assert Legal(h[i - 1].job, h[i].change, h[i].job);
  }
}
