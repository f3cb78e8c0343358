/** From the validated file to the applied rows.

    A finish statement trusts the claim that issues it, and every attempt of a job writes to the
    same object names, so a worker that outlives its attempt can mix two attempts up (`StaleFinish`).
    In a run in which workers store and finish within their own attempts, what is sent to be applied
    is what was validated. */
module EndToEnd {
  import opened Rows
  import opened Jobs
  import opened Histories
  import opened Protocol
  import opened Runs

  /** The attempt the claim was made in is still the current one. */
  predicate Current(s: State, c: nat)
    requires c < |s.claims|
  {
    var k := s.claims[c];
    k.id in s.history && 1 <= k.version <= |s.history[k.id]|
    && NoRetry(s.history[k.id], k.version - 1, |s.history[k.id]| - 1)
  }

  predicate CurrentIfOpen(s: State, c: nat) {
    c < |s.claims| && s.claims[c].open ==> Current(s, c)
  }

  /** A worker stores a file or finishes only while its attempt is the current one. */
  predicate Timely(s: State, step: Step) {
    match step
    case StoreNormalizedStep(c, _) => CurrentIfOpen(s, c)
    case FinishValidationStep(c, _, _) => CurrentIfOpen(s, c)
    case FinishApplyStep(c, _, _) => CurrentIfOpen(s, c)
    case _ => true
  }

  /** A worker can tell: its attempt is the current one if the row still has the version of its claim. */
  lemma OwnVersionIsCurrent(s: State, c: nat)
    requires Reached(s) && c < |s.claims|
    requires s.claims[c].id in s.rows && s.rows[s.claims[c].id].version == s.claims[c].version
    ensures Current(s, c)
  {
    ReachedInv(s);
    assert ClaimInv(s, c);
    RowFacts(s, s.claims[c].id);
  }

  /** The step does not retry a job while a worker of an earlier attempt is still running. */
  predicate NoSurvivor(s: State, step: Step) {
    step.RetryStep? ==> forall c :: 0 <= c < |s.claims| && s.claims[c].id == step.id ==> !s.claims[c].open
  }

  /** The rows the current attempt has validated and not yet applied. */
  function Validated(h: History): Option<seq<Row>>
    requires h != []
  {
    var n := |h|;
    if h[n - 1].change == ValidatedChange then Some(h[n - 1].rows)
    else if h[n - 1].change == ApplyRequestedChange && n >= 2 then Some(h[n - 2].rows)
    else if h[n - 1].change == ApplyClaimed && n >= 3 then Some(h[n - 3].rows)
    else None
  }

  /** Counters count the recorded rows, and what has been applied is what was validated. */
  ghost predicate AppliedIsValidated(h: History, i: int)
    requires 0 <= i < |h|
  {
    && (h[i].change == ValidatedChange ==> h[i].job.valid == |h[i].rows|)
    && (h[i].change == SucceededChange ==>
          && i >= 3 && h[i - 3].change == ValidatedChange && h[i].rows == h[i - 3].rows
          && h[i].job.applied == |h[i].rows|)
  }

  ghost predicate JobLink(s: State, id: Id) {
    id in s.history ==>
      && s.history[id] != []
      && (forall i :: 0 <= i < |s.history[id]| ==> AppliedIsValidated(s.history[id], i))
      && (var key := NormalizedObject(s.history[id][0].job.scope, id);
          Validated(s.history[id]).Some? && key in s.objects ==> s.objects[key] == Validated(s.history[id]).value)
  }

  /** What a running claim of the current attempt stored is what the object holds, and what it loaded
      is what was validated. */
  ghost predicate ClaimLink(s: State, c: int)
    requires 0 <= c < |s.claims|
  {
    var k := s.claims[c];
    k.open && Current(s, c) ==>
      && (k.kind == Validation ==>
            && (forall i :: k.version <= i < |s.history[k.id]| ==>
                  s.history[k.id][i].change != ValidatedChange && s.history[k.id][i].change != ValidationFailedChange)
            && (k.report.Some? && k.key in s.objects ==> s.objects[k.key] == k.report.value.normalized))
      && (k.kind == Apply && k.input.Some? && s.history[k.id][|s.history[k.id]| - 1].change == ApplyClaimed ==>
            Validated(s.history[k.id]) == Some(k.input.value))
  }

  ghost predicate Linked(s: State) {
    && (forall id :: JobLink(s, id))
    && (forall c :: 0 <= c < |s.claims| ==> ClaimLink(s, c))
  }

  /** Two claims of the current attempt of one job are of different kinds. */
  lemma CurrentClaimsDiffer(s: State, c: nat, d: nat)
    requires Inv(s) && c < |s.claims| && d < |s.claims| && c != d
    requires Current(s, c) && Current(s, d) && s.claims[c].id == s.claims[d].id
    ensures s.claims[c].kind != s.claims[d].kind
  {
    if s.claims[c].kind == s.claims[d].kind {
      if c < d { ClaimsDiffer(s, c, d); } else { ClaimsDiffer(s, d, c); }
    }
  }

  /** While a validation is running, its attempt has nothing validated yet. */
  lemma NothingValidated(s: State, c: nat)
    requires Inv(s) && Linked(s) && Running(s, c, Validation) && Current(s, c)
    ensures s.claims[c].id in s.history && s.history[s.claims[c].id] != [] && Validated(s.history[s.claims[c].id]) == None
  {
    var k := s.claims[c];
    assert ClaimLink(s, c) && ClaimInv(s, c) && JobInv(s, k.id);
    NoneValidatedSince(s.history[k.id], k.version);
  }

  lemma NoneValidatedSince(h: History, v: nat)
    requires Chain(h) && 1 <= v <= |h| && h[v - 1].change == ValidationClaimed
    requires forall i :: v <= i < |h| ==> h[i].change != ValidatedChange
    ensures Validated(h) == None
  {
    ApplyFollowsValidation(h);
    EntryStatus(h, |h| - 1);
  }

  /** The status a change leaves the row in. */
  lemma EntryStatus(h: History, i: nat)
    requires Chain(h) && i < |h|
    ensures h[i].change == ValidatedChange ==> h[i].job.status == Ready
    ensures h[i].change == ApplyRequestedChange ==> h[i].job.status == ApplyQueued
    ensures h[i].change == ApplyClaimed ==> h[i].job.status == Applying
    ensures h[i].change == ValidationClaimed ==> h[i].job.status == Validating
  {
    if i > 0 { assert Legal(h[i - 1].job, h[i].change, h[i].job); }
  }

  /** When a change may be committed without breaking the links. */
  ghost predicate Linkable(s: State, change: Change, j: Job, rows: seq<Row>) {
    && (forall c :: 0 <= c < |s.claims| && s.claims[c].open && s.claims[c].id == j.id && Current(s, c) ==>
          && (s.claims[c].kind == Validation ==> change != ValidatedChange && change != ValidationFailedChange)
          && (s.claims[c].kind == Apply ==> change != ApplyClaimed))
    && (change == ValidatedChange ==>
          && j.valid == |rows|
          && (NormalizedObject(j.scope, j.id) in s.objects ==> s.objects[NormalizedObject(j.scope, j.id)] == rows))
    && (change == SucceededChange ==>
          && Past(s, j.id) != [] && Validated(Past(s, j.id)) == Some(rows) && j.applied == |rows|)
  }

  /** The validated rows travel with the confirmation and the claim that follow them. */
  lemma ValidatedTravels(h: History, e: Entry<Row>)
    requires Chain(h) && Chain(h + [e])
    ensures e.change == ValidatedChange ==> Validated(h + [e]) == Some(e.rows)
    ensures e.change == ApplyRequestedChange || e.change == ApplyClaimed ==> Validated(h + [e]) == Validated(h)
    ensures e.change != ValidatedChange && e.change != ApplyRequestedChange && e.change != ApplyClaimed
            ==> Validated(h + [e]) == None
    ensures e.change == SucceededChange && Validated(h).Some? ==>
              |h| >= 3 && h[|h| - 3].change == ValidatedChange && Validated(h).value == h[|h| - 3].rows
  {
    var h', n := h + [e], |h|;
    assert h'[n - 1] == h[n - 1] && h'[n] == e;
    assert n >= 2 ==> h'[n - 2] == h[n - 2];
    StatusBefore(h', n);
    ApplyFollowsValidation(h);
  }

  /** The status a change of the second phase finds. */
  lemma StatusBefore(h: History, i: nat)
    requires Chain(h) && 0 < i < |h|
    ensures h[i].change == ApplyRequestedChange ==> h[i - 1].job.status == Ready
    ensures h[i].change == ApplyClaimed ==> h[i - 1].job.status == ApplyQueued
    ensures h[i].change == SucceededChange ==> h[i - 1].job.status == Applying
  {
    assert Legal(h[i - 1].job, h[i].change, h[i].job);
  }

  lemma CommitLinksJob(s: State, change: Change, j: Job, rows: seq<Row>, id: Id)
    requires JobInv(s, id) && JobLink(s, id) && Admissible(s, change, j) && Linkable(s, change, j, rows)
    ensures JobLink(Commit(s, change, j, rows), id)
  {
    var s' := Commit(s, change, j, rows);
    if id != j.id {
      assert id in s'.history ==> s'.history[id] == s.history[id];
    } else {
      HistoryGrows(s, change, j, rows);
      assert s'.history[id] == Past(s, id) + [Entry(change, j, rows)];
      if change != CreatedChange { CommitLinksOwn(s, change, j, rows); }
    }
  }

  /** The history of the job that has changed. */
  lemma CommitLinksOwn(s: State, change: Change, j: Job, rows: seq<Row>)
    requires JobInv(s, j.id) && JobLink(s, j.id) && Admissible(s, change, j) && Linkable(s, change, j, rows)
    requires change != CreatedChange && Chain(s.history[j.id] + [Entry(change, j, rows)])
    ensures JobLink(Commit(s, change, j, rows), j.id)
  {
    var h, e := s.history[j.id], Entry(change, j, rows);
    ValidatedTravels(h, e);
    ScopeIsConstant(h + [e], |h|);
    forall i | 0 <= i < |h + [e]| ensures AppliedIsValidated(h + [e], i) {
      if i < |h| { assert AppliedIsValidated(h, i); }
    }
  }

  lemma CommitLinksClaim(s: State, change: Change, j: Job, rows: seq<Row>, c: nat)
    requires c < |s.claims| && ClaimInv(s, c) && ClaimLink(s, c) && Linkable(s, change, j, rows)
    ensures ClaimLink(Commit(s, change, j, rows), c)
  {
    var s', id, e := Commit(s, change, j, rows), s.claims[c].id, Entry(change, j, rows);
    if id != j.id {
      assert s'.history[id] == s.history[id];
    } else if Current(s', c) {
      CurrentBefore(s.history[id], e, s.claims[c].version - 1);
      assert s'.history[id] == s.history[id] + [e];
    }
  }

  /** No retry up to now means no retry up to the last change before, and that change was none. */
  lemma CurrentBefore(h: History, e: Entry<Row>, i: nat)
    requires i < |h| && NoRetry(h + [e], i, |h|)
    ensures NoRetry(h, i, |h| - 1) && e.change != RetriedChange
  {
    assert (h + [e])[|h|] == e;
    forall k | i < k <= |h| - 1 ensures h[k].change != RetriedChange { assert (h + [e])[k] == h[k]; }
  }

  lemma CommitLinks(s: State, change: Change, j: Job, rows: seq<Row>)
    requires Inv(s) && Linked(s) && Admissible(s, change, j) && Linkable(s, change, j, rows)
    ensures Linked(Commit(s, change, j, rows))
  {
    var s' := Commit(s, change, j, rows);
    forall id ensures JobLink(s', id) {
      assert JobInv(s, id) && JobLink(s, id);
      CommitLinksJob(s, change, j, rows, id);
    }
    forall c | 0 <= c < |s'.claims| ensures ClaimLink(s', c) {
      assert ClaimInv(s, c) && ClaimLink(s, c);
      CommitLinksClaim(s, change, j, rows, c);
    }
  }

  lemma CommitIfLinks(s: State, change: Change, id: Id, updated: Option<Job>, rows: seq<Row>)
    requires Inv(s) && Linked(s) && change != RetriedChange
    requires updated.Some? ==> id in s.rows && Legal(s.rows[id], change, updated.value)
    requires updated.Some? ==> Linkable(s, change, updated.value, rows)
    ensures Linked(CommitIf(s, change, updated, rows))
  {
    if updated.Some? {
      assert JobInv(s, id);
      SuccessorAdmissible(s, change, id, updated.value);
      CommitLinks(s, change, updated.value, rows);
    }
  }

  /** Deleting rows or objects breaks no link. */
  lemma DeletionLinks(s: State, s': State)
    requires Linked(s) && s'.history == s.history && s'.claims == s.claims
    requires forall k :: k in s'.objects ==> k in s.objects && s'.objects[k] == s.objects[k]
    ensures Linked(s')
  {
    forall id ensures JobLink(s', id) { assert JobLink(s, id); }
    forall c | 0 <= c < |s'.claims| ensures ClaimLink(s', c) { assert ClaimLink(s, c); }
  }

  lemma CloseLinks(s: State, c: nat)
    requires Linked(s) && c < |s.claims|
    ensures Linked(Close(s, c))
  {
    var s' := Close(s, c);
    forall id ensures JobLink(s', id) { assert JobLink(s, id); }
    forall d | 0 <= d < |s'.claims| ensures ClaimLink(s', d) { assert ClaimLink(s, d); }
  }

  /** What a worker has sent to the provider and heard from it breaks no link. */
  lemma ProviderLinks(s: State, s': State)
    requires Linked(s) && s'.history == s.history && s'.objects == s.objects && |s'.claims| == |s.claims|
    requires forall c :: 0 <= c < |s.claims| ==>
               s'.claims[c].(calls := s.claims[c].calls, answered := s.claims[c].answered) == s.claims[c]
    ensures Linked(s')
  {
    forall id ensures JobLink(s', id) { assert JobLink(s, id); }
    forall c | 0 <= c < |s'.claims| ensures ClaimLink(s', c) {
      assert s'.claims[c].(calls := s.claims[c].calls, answered := s.claims[c].answered) == s.claims[c];
      assert ClaimLink(s, c);
    }
  }

  /** Only the running validation of a job writes its normalized object. */
  lemma StoreLinks(s: State, c: nat, report: Report)
    requires Inv(s) && Linked(s) && Running(s, c, Validation) && s.claims[c].report.None? && Faithful(report) && Current(s, c)
    ensures Linked(s.(objects := s.objects[s.claims[c].key := report.normalized],
                      claims := s.claims[c := s.claims[c].(report := Some(report))]))
  {
    var k := s.claims[c];
    var s' := s.(objects := s.objects[k.key := report.normalized], claims := s.claims[c := k.(report := Some(report))]);
    NothingValidated(s, c);
    assert ClaimInv(s, c);
    forall id ensures JobLink(s', id) { assert JobLink(s, id); }
    forall d | 0 <= d < |s'.claims| ensures ClaimLink(s', d) {
      assert ClaimLink(s, d) && ClaimInv(s, d);
      if d != c && Current(s, d) && s.claims[d].id == k.id { CurrentClaimsDiffer(s, c, d); }
    }
  }

  lemma LoadLinks(s: State, c: nat)
    requires Inv(s) && Linked(s) && Running(s, c, Apply) && s.claims[c].key in s.objects
    ensures Linked(s.(claims := s.claims[c := s.claims[c].(input := Some(s.objects[s.claims[c].key]))]))
  {
    var s' := s.(claims := s.claims[c := s.claims[c].(input := Some(s.objects[s.claims[c].key]))]);
    forall id ensures JobLink(s', id) { assert JobLink(s, id); }
    forall d | 0 <= d < |s'.claims| ensures ClaimLink(s', d) {
      assert ClaimLink(s, d) && ClaimInv(s, d);
      if d == c {
        assert JobLink(s, s.claims[c].id) && JobInv(s, s.claims[c].id);
        LoadedIsValidated(s, c);
      }
    }
  }

  lemma LoadedIsValidated(s: State, c: nat)
    requires Running(s, c, Apply) && s.claims[c].key in s.objects
    requires ClaimInv(s, c) && ClaimLink(s, c) && JobLink(s, s.claims[c].id) && JobInv(s, s.claims[c].id)
    ensures ClaimLink(s.(claims := s.claims[c := s.claims[c].(input := Some(s.objects[s.claims[c].key]))]), c)
  {
    var h := s.history[s.claims[c].id];
    if h[|h| - 1].change == ApplyClaimed { ClaimedIsValidated(h); }
  }

  /** An apply that has been claimed has validated rows to work on. */
  lemma ClaimedIsValidated(h: History)
    requires Chain(h) && h[|h| - 1].change == ApplyClaimed
    ensures Validated(h).Some?
  {
    EntryStatus(h, |h| - 1);
    ApplyFollowsValidation(h);
  }

  /** A claim finds no claim of its own kind in the current attempt of the job. */
  lemma NoRunningTwin(s: State, id: Id, kind: Kind, now: Time, c: nat)
    requires Inv(s) && Linked(s) && id in s.rows && s.rows[id].status == (if kind == Validation then Queued else ApplyQueued)
    requires c < |s.claims| && s.claims[c].id == id && Current(s, c)
    ensures s.claims[c].kind != kind
  {
    assert ClaimInv(s, c) && JobInv(s, id);
    if s.claims[c].kind == kind {
      var h, v := s.history[id], s.claims[c].version;
      ClaimEntryStatus(h, v - 1, kind);
      if v - 1 < |h| - 1 { RankFalls(h, v - 1, |h| - 1); }
    }
  }

  lemma TakeClaimLinks(s: State, id: Id, scope: Scope, kind: Kind, now: Time)
    requires Inv(s) && Linked(s)
    ensures Linked(TakeClaim(s, id, scope, kind, now))
  {
    RowFacts(s, id);
    var updated := Claiming(s, id, scope, kind, now);
    if updated.Some? {
      forall c | 0 <= c < |s.claims| && s.claims[c].id == id && Current(s, c) ensures s.claims[c].kind != kind {
        NoRunningTwin(s, id, kind, now, c);
      }
      CommitIfLinks(s, ClaimChange(kind), id, updated, []);
      ClaimAppendLinks(Commit(s, ClaimChange(kind), updated.value, []), kind, updated.value);
    }
  }

  lemma ClaimAppendLinks(s: State, kind: Kind, j: Job)
    requires Linked(s) && j.id in s.history && |s.history[j.id]| == j.version >= 1
    ensures Linked(s.(claims := s.claims + [NewClaim(j.id, j.scope, kind, j.version, j.normalizedKey)]))
  {
    var s' := s.(claims := s.claims + [NewClaim(j.id, j.scope, kind, j.version, j.normalizedKey)]);
    forall id ensures JobLink(s', id) { assert JobLink(s, id); }
    forall c | 0 <= c < |s'.claims| ensures ClaimLink(s', c) {
      if c < |s.claims| { assert ClaimLink(s, c); }
    }
  }

  /** The finishing validation is the only one running, and the object holds what it stored. */
  lemma FinishValidationLinks(s: State, c: nat, expires: Time, now: Time)
    requires Inv(s) && Linked(s) && Running(s, c, Validation) && s.claims[c].report.Some? && Current(s, c)
    ensures var r := s.claims[c].report.value;
      Linked(CommitIf(Close(s, c), ReportChange(r), FinishingValidation(s, s.claims[c], r, expires, now), r.normalized))
  {
    var k, r := s.claims[c], s.claims[c].report.value;
    var closed := Close(s, c);
    CloseLinks(s, c);
    assert ClaimInv(s, c) && ClaimLink(s, c);
    ClaimUpdateKeeps(s, c, k.(open := false));
    RowFacts(s, k.id);
    forall d | 0 <= d < |closed.claims| && closed.claims[d].open && closed.claims[d].id == k.id && Current(closed, d)
      ensures closed.claims[d].kind != Validation
    {
      assert Current(s, d);
      CurrentClaimsDiffer(s, c, d);
    }
    var change := ReportChange(r);
    CommitIfLinks(closed, change, k.id, FinishingValidation(s, k, r, expires, now), r.normalized);
  }

  lemma FinishApplyLinks(s: State, c: nat, expires: Time, now: Time)
    requires Inv(s) && Linked(s) && Running(s, c, Apply) && s.claims[c].input.Some? && Current(s, c)
    ensures var rows := s.claims[c].input.value;
      Linked(CommitIf(Close(s, c), SucceededChange, FinishingApply(s, s.claims[c], rows, expires, now), rows))
  {
    var k, rows := s.claims[c], s.claims[c].input.value;
    CloseLinks(s, c);
    assert ClaimInv(s, c) && ClaimLink(s, c) && JobInv(s, k.id);
    ClaimUpdateKeeps(s, c, k.(open := false));
    RowFacts(s, k.id);
    AppliedWasValidated(s, c);
    CommitIfLinks(Close(s, c), SucceededChange, k.id, FinishingApply(s, k, rows, expires, now), rows);
  }

  /** A job that is being applied was validated, and the claim has loaded the rows of that validation. */
  lemma AppliedWasValidated(s: State, c: nat)
    requires Running(s, c, Apply) && s.claims[c].input.Some? && Current(s, c)
    requires ClaimInv(s, c) && ClaimLink(s, c) && JobInv(s, s.claims[c].id)
    ensures var id := s.claims[c].id;
      id in s.rows && s.rows[id].status == Applying ==> Past(s, id) != [] && Validated(Past(s, id)) == s.claims[c].input
  {
    var id := s.claims[c].id;
    var h := s.history[id];
    if id in s.rows && s.rows[id].status == Applying {
      ApplyFollowsValidation(h);
      assert h[|h| - 1].change == ApplyClaimed;
    }
  }

  lemma FailLinks(s: State, c: nat, code: Text, message: Text, expires: Time, now: Time)
    requires Inv(s) && Linked(s) && c < |s.claims|
    ensures Linked(CommitIf(Close(s, c), FailedChange, Failing(s, s.claims[c], code, message, expires, now), []))
  {
    var k := s.claims[c];
    CloseLinks(s, c);
    assert ClaimInv(s, c);
    ClaimUpdateKeeps(s, c, k.(open := false));
    RowFacts(s, k.id);
    CommitIfLinks(Close(s, c), FailedChange, k.id, Failing(s, k, code, message, expires, now), []);
  }

  lemma RequestLinks(s: State, step: Step)
    requires Inv(s) && Linked(s)
    requires step.CompleteUploadStep? || step.CancelStep? || step.ConfirmStep?
    ensures Linked(Next(s, step))
  {
    RowFacts(s, step.id);
    match step
    case CompleteUploadStep(id, scope, expected, bytes, checksum, now, actor) =>
      CommitIfLinks(s, RequestedChange, id, Completing(s, id, scope, expected, bytes, checksum, now, actor), []);
    case CancelStep(id, scope, expected, now, actor) =>
      CommitIfLinks(s, CanceledChange, id, Canceling(s, id, scope, expected, now, actor), []);
    case ConfirmStep(id, scope, expected, key, now, actor) =>
      CommitIfLinks(s, ApplyRequestedChange, id, Confirming(s, id, scope, expected, key, now, actor), []);
  }

  lemma ExpireLinks(s: State, id: Id, scope: Scope, listed: Status, now: Time)
    requires Inv(s) && Linked(s)
    ensures Linked(CommitIf(s, ExpiredChange, Expiring(s, id, scope, listed, now), []))
  {
    RowFacts(s, id);
    CommitIfLinks(s, ExpiredChange, id, Expiring(s, id, scope, listed, now), []);
  }

  lemma RetryLinks(s: State, step: Step)
    requires Inv(s) && Linked(s) && step.RetryStep?
    ensures Linked(Next(s, step))
  {
    RowFacts(s, step.id);
    var updated := Retrying(s, step.id, step.scope, step.expected, step.key, step.expires, step.now, step.actor);
    if updated.Some? { CommitLinks(s, RetriedChange, updated.value, []); }
  }

  lemma CreateLinks(s: State, j: Job)
    requires Inv(s) && Linked(s) && Admissible(s, CreatedChange, j)
    ensures Linked(Commit(s, CreatedChange, j, []))
  {
    forall c | 0 <= c < |s.claims| ensures s.claims[c].id != j.id { assert ClaimInv(s, c); }
    CommitLinks(s, CreatedChange, j, []);
  }

  /** The steps of a worker after its claim. */
  lemma WorkerStepLinks(s: State, step: Step)
    requires Inv(s) && Linked(s) && Timely(s, step)
    requires step.StoreNormalizedStep? || step.LoadNormalizedStep? || step.SendStep? || step.AnswerStep?
          || step.FinishValidationStep? || step.FinishApplyStep? || step.FailStep? || step.AbandonStep?
    ensures Linked(Next(s, step))
  {
    match step
    case StoreNormalizedStep(c, report) =>
      if Running(s, c, Validation) && s.claims[c].report.None? && Faithful(report) { StoreLinks(s, c, report); }
    case LoadNormalizedStep(c) =>
      if Running(s, c, Apply) && s.claims[c].key in s.objects { LoadLinks(s, c); }
    case SendStep(c, _) =>
      if c < |s.claims| { ProviderLinks(s, Next(s, step)); }
    case AnswerStep(c) =>
      if c < |s.claims| { ProviderLinks(s, Next(s, step)); }
    case FinishValidationStep(c, expires, now) =>
      if Running(s, c, Validation) && s.claims[c].report.Some? { FinishValidationLinks(s, c, expires, now); }
    case FinishApplyStep(c, expires, now) =>
      if Running(s, c, Apply) && AllAnswered(s.claims[c]) { FinishApplyLinks(s, c, expires, now); }
    case FailStep(c, code, message, expires, now) =>
      if c < |s.claims| { FailLinks(s, c, code, message, expires, now); }
    case AbandonStep(c) =>
      if c < |s.claims| { CloseLinks(s, c); }
  }

  lemma NextLinks(s: State, step: Step)
    requires Inv(s) && Linked(s) && Timely(s, step)
    ensures Linked(Next(s, step))
  {
    match step
    case CreateStep(id, scope, dataset, service, format, key, expires, now, actor) =>
      if id !in s.history && KeyFree(s, scope, key, id) {
        CreateLinks(s, NewJob(id, scope, dataset, service, format, key, expires, now, actor));
      }
    case DeliverStep(event, now) =>
      if event < |s.outbox| {
        TakeClaimLinks(s, s.outbox[event].job.id, s.outbox[event].job.scope, Validation, now);
        TakeClaimLinks(s, s.outbox[event].job.id, s.outbox[event].job.scope, Apply, now);
      }
    case ArriveStep(_) => DeletionLinks(s, Next(s, step));
    case DeleteObjectStep(_) => DeletionLinks(s, Next(s, step));
    case PurgeStep(_, _, _, _) => DeletionLinks(s, Next(s, step));
    case RetryStep(_, _, _, _, _, _, _) => RetryLinks(s, step);
    case ExpireStep(id, scope, listed, now) => ExpireLinks(s, id, scope, listed, now);
    case CompleteUploadStep(_, _, _, _, _, _, _) => RequestLinks(s, step);
    case CancelStep(_, _, _, _, _) => RequestLinks(s, step);
    case ConfirmStep(_, _, _, _, _, _) => RequestLinks(s, step);
    case _ => WorkerStepLinks(s, step);
  }

  lemma {:induction false} TimelyRunsLink(steps: seq<Step>)
    requires Along(Timely, steps)
    ensures Inv(Run(INIT, steps)) && Linked(Run(INIT, steps))
  {
    assert After(INIT, steps, Run(INIT, steps));
    ReachedInv(Run(INIT, steps));
    if steps != [] {
      TimelyRunsLink(steps[..|steps| - 1]);
      NextLinks(Run(INIT, steps[..|steps| - 1]), steps[|steps| - 1]);
    } else {
      forall id ensures JobLink(INIT, id) {}
    }
  }

  /** End to end: when workers store and finish within their own attempts, a job that succeeded has sent
      every row of its file to be applied, and these rows are, one by one, those its own attempt
      validated. What the provider makes of them depends on the keys it knows (`Deliveries`). */
  lemma SucceededSentAll(s: State, id: Id)
    requires ReachedAlong(Timely, s) && id in s.rows && s.rows[id].status == Succeeded
    ensures var j := s.rows[id]; j.applied == j.valid == j.total
    ensures var h := Past(s, id);
      && |h| >= 4 && s.rows[id].applied == |h[|h| - 1].rows|
      && h[|h| - 1].change == SucceededChange && h[|h| - 4].change == ValidatedChange
      && h[|h| - 1].rows == h[|h| - 4].rows && NoRetry(h, |h| - 4, |h| - 1)
  {
    TimelyLinks(s);
    RowFacts(s, id);
    assert JobInv(s, id) && JobLink(s, id);
    var h := s.history[id];
    var n := |h| - 1;
    assert n > 0 ==> Legal(h[n - 1].job, h[n].change, h[n].job);
    assert AppliedIsValidated(h, n);
    assert AppliedIsValidated(h, n - 3);
    AppliedCounts(h);
  }

  lemma TimelyLinks(s: State)
    requires ReachedAlong(Timely, s)
    ensures Inv(s) && Linked(s)
  {
    var steps :| After(INIT, steps, s) && Along(Timely, steps);
    RunOf(INIT, steps, s);
    TimelyRunsLink(steps);
  }

  /** From a validation to the success three changes later the counters stay. */
  lemma AppliedCounts(h: History)
    requires Chain(h) && |h| >= 4 && h[|h| - 1].change == SucceededChange && h[|h| - 4].change == ValidatedChange
    ensures h[|h| - 1].job.valid == h[|h| - 4].job.valid && h[|h| - 1].job.total == h[|h| - 4].job.total
    ensures NoRetry(h, |h| - 4, |h| - 1)
  {
    var n := |h| - 1;
    assert Legal(h[n - 1].job, h[n].change, h[n].job);
    assert Legal(h[n - 2].job, h[n - 1].change, h[n - 1].job);
    assert Legal(h[n - 3].job, h[n - 2].change, h[n - 2].job);
    assert n - 3 > 0 ==> Legal(h[n - 4].job, h[n - 3].change, h[n - 3].job);
  }

  // ---- runs without survivors are timely ----

  ghost predicate AllCurrent(s: State) {
    forall c :: 0 <= c < |s.claims| ==> CurrentIfOpen(s, c)
  }

  lemma CommitCurrent(s: State, change: Change, j: Job, rows: seq<Row>)
    requires ClaimsInv(s) && AllCurrent(s)
    requires change == RetriedChange ==> forall c :: 0 <= c < |s.claims| && s.claims[c].id == j.id ==> !s.claims[c].open
    ensures AllCurrent(Commit(s, change, j, rows))
  {
    var s' := Commit(s, change, j, rows);
    forall c | 0 <= c < |s'.claims| ensures CurrentIfOpen(s', c) {
      assert ClaimInv(s, c) && CurrentIfOpen(s, c);
      if s.claims[c].id == j.id {
        assert s'.history[j.id] == s.history[j.id] + [Entry(change, j, rows)];
      } else {
        assert s'.history[s.claims[c].id] == s.history[s.claims[c].id];
      }
    }
  }

  lemma CommitIfCurrent(s: State, change: Change, updated: Option<Job>, rows: seq<Row>)
    requires ClaimsInv(s) && AllCurrent(s) && change != RetriedChange
    ensures AllCurrent(CommitIf(s, change, updated, rows))
  {
    if updated.Some? { CommitCurrent(s, change, updated.value, rows); }
  }

  lemma CloseCurrent(s: State, c: nat)
    requires ClaimsInv(s) && AllCurrent(s) && c < |s.claims|
    ensures ClaimsInv(Close(s, c)) && AllCurrent(Close(s, c))
  {
    var s' := Close(s, c);
    forall d | 0 <= d < |s'.claims| ensures ClaimInv(s', d) && CurrentIfOpen(s', d) { assert ClaimInv(s, d) && CurrentIfOpen(s, d); }
    forall d, e | 0 <= d < e < |s'.claims| ensures ClaimOrder(s', d, e) { assert ClaimOrder(s, d, e); }
  }

  lemma TakeClaimCurrent(s: State, id: Id, scope: Scope, kind: Kind, now: Time)
    requires Inv(s) && AllCurrent(s)
    ensures AllCurrent(TakeClaim(s, id, scope, kind, now))
  {
    RowFacts(s, id);
    var updated := Claiming(s, id, scope, kind, now);
    if updated.Some? {
      CommitCurrent(s, ClaimChange(kind), updated.value, []);
      var s1, s' := Commit(s, ClaimChange(kind), updated.value, []), TakeClaim(s, id, scope, kind, now);
      forall c | 0 <= c < |s'.claims| ensures CurrentIfOpen(s', c) {
        if c < |s.claims| { assert CurrentIfOpen(s1, c); }
      }
    }
  }

  lemma NextCurrent(s: State, step: Step)
    requires Inv(s) && AllCurrent(s) && NoSurvivor(s, step)
    ensures AllCurrent(Next(s, step))
  {
    var s' := Next(s, step);
    match step
    case DeliverStep(event, now) =>
      if event < |s.outbox| {
        TakeClaimCurrent(s, s.outbox[event].job.id, s.outbox[event].job.scope, Validation, now);
        TakeClaimCurrent(s, s.outbox[event].job.id, s.outbox[event].job.scope, Apply, now);
      }
    case RetryStep(id, scope, expected, key, expires, now, actor) =>
      RowFacts(s, id);
      var updated := Retrying(s, id, scope, expected, key, expires, now, actor);
      if updated.Some? { CommitCurrent(s, RetriedChange, updated.value, []); }
    case CreateStep(id, scope, dataset, service, format, key, expires, now, actor) =>
      if s' != s { CommitCurrent(s, CreatedChange, NewJob(id, scope, dataset, service, format, key, expires, now, actor), []); }
    case CompleteUploadStep(id, scope, expected, bytes, checksum, now, actor) =>
      CommitIfCurrent(s, RequestedChange, Completing(s, id, scope, expected, bytes, checksum, now, actor), []);
    case CancelStep(id, scope, expected, now, actor) =>
      CommitIfCurrent(s, CanceledChange, Canceling(s, id, scope, expected, now, actor), []);
    case ConfirmStep(id, scope, expected, key, now, actor) =>
      CommitIfCurrent(s, ApplyRequestedChange, Confirming(s, id, scope, expected, key, now, actor), []);
    case ExpireStep(id, scope, listed, now) =>
      CommitIfCurrent(s, ExpiredChange, Expiring(s, id, scope, listed, now), []);
    case ArriveStep(_) => SameClaimsCurrent(s, s');
    case DeleteObjectStep(_) => SameClaimsCurrent(s, s');
    case PurgeStep(_, _, _, _) => SameClaimsCurrent(s, s');
    case _ => WorkerCurrent(s, step);
  }

  lemma WorkerCurrent(s: State, step: Step)
    requires Inv(s) && AllCurrent(s)
    requires step.StoreNormalizedStep? || step.FinishValidationStep? || step.LoadNormalizedStep?
          || step.SendStep? || step.AnswerStep? || step.FinishApplyStep? || step.FailStep? || step.AbandonStep?
    ensures AllCurrent(Next(s, step))
  {
    if step.claim < |s.claims| {
      var k := s.claims[step.claim];
      match step
      case FinishValidationStep(c, expires, now) =>
        CloseCurrent(s, step.claim);
        if k.report.Some? {
          var r := k.report.value;
          CommitIfCurrent(Close(s, c), ReportChange(r), FinishingValidation(s, k, r, expires, now), r.normalized);
        }
      case FinishApplyStep(c, expires, now) =>
        CloseCurrent(s, step.claim);
        if k.input.Some? {
          CommitIfCurrent(Close(s, c), SucceededChange, FinishingApply(s, k, k.input.value, expires, now), k.input.value);
        }
      case FailStep(c, code, message, expires, now) =>
        CloseCurrent(s, step.claim);
        CommitIfCurrent(Close(s, c), FailedChange, Failing(s, k, code, message, expires, now), []);
      case AbandonStep(_) => CloseCurrent(s, step.claim);
      case _ => ClaimStepCurrent(s, step);
    }
  }

  /** The steps of a worker that change no row. */
  lemma ClaimStepCurrent(s: State, step: Step)
    requires AllCurrent(s)
    requires step.StoreNormalizedStep? || step.LoadNormalizedStep? || step.SendStep? || step.AnswerStep?
    ensures AllCurrent(Next(s, step))
  {
    SameClaimsCurrent(s, Next(s, step));
  }

  lemma SameClaimsCurrent(s: State, s': State)
    requires AllCurrent(s) && s'.history == s.history && |s'.claims| == |s.claims|
    requires forall c :: 0 <= c < |s.claims| ==>
               && s'.claims[c].id == s.claims[c].id && s'.claims[c].version == s.claims[c].version
               && s'.claims[c].open == s.claims[c].open
    ensures AllCurrent(s')
  {
    forall c | 0 <= c < |s'.claims| ensures CurrentIfOpen(s', c) { assert CurrentIfOpen(s, c); }
  }

  /** When no worker survives a retry, every worker stays within its own attempt. */
  lemma {:induction false} NoSurvivorIsTimely(steps: seq<Step>)
    requires Along(NoSurvivor, steps)
    ensures Along(Timely, steps) && AllCurrent(Run(INIT, steps))
  {
    if steps != [] {
      var init := steps[..|steps| - 1];
      var s := Run(INIT, init);
      NoSurvivorIsTimely(init);
      assert After(INIT, init, s);
      ReachedInv(s);
      NextCurrent(s, steps[|steps| - 1]);
      if steps[|steps| - 1].StoreNormalizedStep? || steps[|steps| - 1].FinishValidationStep? || steps[|steps| - 1].FinishApplyStep? {
        assert CurrentIfOpen(s, steps[|steps| - 1].claim);
      }
    }
  }

  lemma NoSurvivorReachesTimely(s: State)
    requires ReachedAlong(NoSurvivor, s)
    ensures ReachedAlong(Timely, s)
  {
    var steps :| After(INIT, steps, s) && Along(NoSurvivor, steps);
    NoSurvivorIsTimely(steps);
  }

  /** The end-to-end theorem for runs in which no worker survives a retry. */
  lemma NoSurvivorSentAll(s: State, id: Id)
    requires ReachedAlong(NoSurvivor, s) && id in s.rows && s.rows[id].status == Succeeded
    ensures var j, h := s.rows[id], Past(s, id);
      && j.applied == j.valid == j.total
      && |h| >= 4 && h[|h| - 4].change == ValidatedChange && h[|h| - 1].rows == h[|h| - 4].rows
  {
    NoSurvivorReachesTimely(s);
    SucceededSentAll(s, id);
  }
}
