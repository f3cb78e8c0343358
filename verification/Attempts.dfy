/** Runs that keep the attempts of a job apart: what the provider holds is then what the job says. */
module Attempts {
  import opened Rows
  import opened Jobs
  import opened Histories
  import opened Providers
  import opened Deliveries
  import opened Protocol
  import opened Runs
  import opened EndToEnd
  import opened Effects

  /** A worker stores, sends and finishes only within its own attempt, and a job is retried only if
      none of its workers has sent anything to the provider yet. */
  predicate Apart(s: State, step: Step) {
    && Timely(s, step)
    && (step.SendStep? ==> CurrentIfOpen(s, step.claim))
    && (step.RetryStep? ==> Unsent(s, step.id))
  }

  predicate Unsent(s: State, id: Id) {
    forall c :: 0 <= c < |s.claims| && s.claims[c].id == id ==> s.claims[c].calls == []
  }

  /** Whoever has sent something belongs to the current attempt of its job. */
  ghost predicate Sending(s: State, c: int)
    requires 0 <= c < |s.claims|
  {
    s.claims[c].calls != [] ==> Current(s, c)
  }

  /** The job's effects are the batches its worker has sent, or all but the last one. */
  ghost predicate InStep(s: State, c: int)
    requires 0 <= c < |s.claims|
  {
    var k := s.claims[c];
    k.calls != [] ==>
      || (k.answered <= |k.calls| && Own(k.id, Commits(s)) == EffectsOf(k.calls[..k.answered]))
      || Own(k.id, Commits(s)) == EffectsOf(k.calls)
  }

  /** Without a sender there is no effect. */
  ghost predicate Silent(s: State, id: Id) {
    Unsent(s, id) ==> Own(id, Commits(s)) == []
  }

  ghost predicate ApartInv(s: State) {
    && (forall c :: 0 <= c < |s.claims| ==> Sending(s, c) && InStep(s, c))
    && (forall id :: Silent(s, id))
  }

  /** There is one sender for each job. */
  lemma OneSender(s: State, c: nat, d: nat)
    requires Inv(s) && NetInv(s) && ApartInv(s) && c < |s.claims| && d < |s.claims|
    requires s.claims[c].id == s.claims[d].id && s.claims[c].calls != [] && s.claims[d].calls != []
    ensures c == d
  {
    assert CallsInv(s, c) && CallsInv(s, d) && Sending(s, c) && Sending(s, d);
    if c != d { CurrentClaimsDiffer(s, c, d); }
  }

  // ---- every step keeps it ----

  /** The history of the job has stayed, or has grown by one change other than the given one. */
  ghost predicate SameOrNext(s: State, s': State, id: Id, other: Change)
    requires id in s.history
  {
    id in s'.history &&
    var h, h' := s.history[id], s'.history[id];
    h' == h || (|h'| == |h| + 1 && h'[..|h|] == h && h'[|h|].change != other)
  }

  lemma CommitNext(s: State, change: Change, updated: Option<Job>, rows: seq<Row>, id: Id, other: Change)
    requires id in s.history && change != other
    ensures SameOrNext(s, CommitIf(s, change, updated, rows), id, other)
  {
    if updated.Some? && updated.value.id == id {
      assert Commit(s, change, updated.value, rows).history[id] == s.history[id] + [Entry(change, updated.value, rows)];
    }
  }

  /** Only a retry starts a new attempt, and only a finished apply makes a job succeed. */
  lemma NextChange(s: State, step: Step, id: Id, other: Change)
    requires Inv(s) && id in s.history
    requires (other == RetriedChange && (step.RetryStep? ==> step.id != id)) || (other == SucceededChange && !step.FinishApplyStep?)
    ensures SameOrNext(s, Next(s, step), id, other)
  {
    match step
    case RetryStep(_, _, _, _, _, _, _) => RetryNext(s, step, id, other);
    case CreateStep(id', scope, dataset, service, format, key, expires, now, actor) =>
      CommitNext(s, CreatedChange, Some(NewJob(id', scope, dataset, service, format, key, expires, now, actor)), [], id, other);
    case CompleteUploadStep(_, _, _, _, _, _, _) => RequestNext(s, step, id, other);
    case CancelStep(_, _, _, _, _) => RequestNext(s, step, id, other);
    case ConfirmStep(_, _, _, _, _, _) => RequestNext(s, step, id, other);
    case ExpireStep(_, _, _, _) => RequestNext(s, step, id, other);
    case DeliverStep(event, now) =>
      if event < |s.outbox| {
        TakeClaimNext(s, s.outbox[event].job.id, s.outbox[event].job.scope, Validation, now, id, other);
        TakeClaimNext(s, s.outbox[event].job.id, s.outbox[event].job.scope, Apply, now, id, other);
      }
    case FinishValidationStep(_, _, _) => WorkerNext(s, step, id, other);
    case FinishApplyStep(_, _, _) => WorkerNext(s, step, id, other);
    case FailStep(_, _, _, _, _) => WorkerNext(s, step, id, other);
    case PurgeStep(_, _, _, _) =>
    case _ => UntouchedStep(s, step);
  }

  lemma RetryNext(s: State, step: Step, id: Id, other: Change)
    requires Inv(s) && id in s.history && step.RetryStep? && (other == SucceededChange || step.id != id)
    ensures SameOrNext(s, Next(s, step), id, other)
  {
    RowFacts(s, step.id);
    var updated := Retrying(s, step.id, step.scope, step.expected, step.key, step.expires, step.now, step.actor);
    if other == SucceededChange { CommitNext(s, RetriedChange, updated, [], id, other); }
  }

  lemma TakeClaimNext(s: State, of: Id, scope: Scope, kind: Kind, now: Time, id: Id, other: Change)
    requires id in s.history && (other == RetriedChange || other == SucceededChange)
    ensures SameOrNext(s, TakeClaim(s, of, scope, kind, now), id, other)
  {
    CommitNext(s, ClaimChange(kind), Claiming(s, of, scope, kind, now), [], id, other);
  }

  lemma RequestNext(s: State, step: Step, id: Id, other: Change)
    requires id in s.history && (other == RetriedChange || other == SucceededChange)
    requires step.CompleteUploadStep? || step.CancelStep? || step.ConfirmStep? || step.ExpireStep?
    ensures SameOrNext(s, Next(s, step), id, other)
  {
    match step
    case CompleteUploadStep(j, scope, expected, bytes, checksum, now, actor) =>
      CommitNext(s, RequestedChange, Completing(s, j, scope, expected, bytes, checksum, now, actor), [], id, other);
    case CancelStep(j, scope, expected, now, actor) =>
      CommitNext(s, CanceledChange, Canceling(s, j, scope, expected, now, actor), [], id, other);
    case ConfirmStep(j, scope, expected, key, now, actor) =>
      CommitNext(s, ApplyRequestedChange, Confirming(s, j, scope, expected, key, now, actor), [], id, other);
    case ExpireStep(j, scope, listed, now) =>
      CommitNext(s, ExpiredChange, Expiring(s, j, scope, listed, now), [], id, other);
  }

  lemma WorkerNext(s: State, step: Step, id: Id, other: Change)
    requires id in s.history && (step.FinishValidationStep? || step.FinishApplyStep? || step.FailStep?)
    requires other == RetriedChange || (other == SucceededChange && !step.FinishApplyStep?)
    ensures SameOrNext(s, Next(s, step), id, other)
  {
    if step.claim < |s.claims| {
      var k, closed := s.claims[step.claim], Close(s, step.claim);
      match step
      case FinishValidationStep(c, expires, now) =>
        if k.report.Some? {
          CommitNext(closed, ReportChange(k.report.value), FinishingValidation(s, k, k.report.value, expires, now),
                     k.report.value.normalized, id, other);
        }
      case FinishApplyStep(c, expires, now) =>
        if k.input.Some? {
          CommitNext(closed, SucceededChange, FinishingApply(s, k, k.input.value, expires, now), k.input.value, id, other);
        }
      case FailStep(c, code, message, expires, now) =>
        CommitNext(closed, FailedChange, Failing(s, k, code, message, expires, now), [], id, other);
    }
  }

  lemma StaysCurrent(s: State, s': State, c: nat)
    requires c < |s.claims| && Current(s, c) && c < |s'.claims|
    requires s'.claims[c].id == s.claims[c].id && s'.claims[c].version == s.claims[c].version
    requires SameOrNext(s, s', s.claims[c].id, RetriedChange)
    ensures Current(s', c)
  {
    var h, h' := s.history[s.claims[c].id], s'.history[s.claims[c].id];
    forall i | 0 <= i < |h| ensures h'[i] == h[i] { assert h'[..|h|][i] == h[i]; }
  }

  // ---- what the provider makes of it ----

  lemma SendingKeeps(s: State, step: Step, c: nat)
    requires Inv(s) && ApartInv(s) && Apart(s, step) && c < |Next(s, step).claims|
    ensures Sending(Next(s, step), c)
  {
    if OnNet(step) {
      NetSendingKeeps(s, step, c);
    } else {
      OthersAreQuiet(s, step);
      QuietSendingKeeps(s, step, Next(s, step), c);
    }
  }

  lemma NetSendingKeeps(s: State, step: Step, c: nat)
    requires ApartInv(s) && Apart(s, step) && OnNet(step) && c < |Next(s, step).claims|
    ensures Sending(Next(s, step), c)
  {
    var s' := Next(s, step);
    UntouchedStep(s, step);
    assert c < |s.claims| && Sending(s, c);
    assert s'.claims[c].id == s.claims[c].id && s'.claims[c].version == s.claims[c].version;
  }

  lemma QuietSendingKeeps(s: State, step: Step, s': State, c: nat)
    requires Inv(s) && ApartInv(s) && Apart(s, step) && s' == Next(s, step) && Quiet(s, s') && c < |s'.claims|
    ensures Sending(s', c)
  {
    if s'.claims[c].calls != [] {
      assert SameCalls(s.claims[c], s'.claims[c]) && Sending(s, c);
      NextChange(s, step, s.claims[c].id, RetriedChange);
      StaysCurrent(s, s', c);
    }
  }

  /** The sender is alone: nobody else of the job has sent anything. */
  lemma FirstToSend(s: State, c: nat)
    requires Inv(s) && NetInv(s) && ApartInv(s) && Running(s, c, Apply) && Current(s, c) && s.claims[c].calls == []
    ensures Unsent(s, s.claims[c].id)
  {
    forall d | 0 <= d < |s.claims| && s.claims[d].id == s.claims[c].id ensures s.claims[d].calls == [] {
      if s.claims[d].calls != [] {
        assert CallsInv(s, d) && Sending(s, d);
        CurrentClaimsDiffer(s, c, d);
      }
    }
  }

  lemma SendInStep(s: State, step: Step, c: nat)
    requires Inv(s) && NetInv(s) && ApartInv(s) && Apart(s, step) && step.SendStep? && c < |s.claims|
    ensures InStep(Next(s, step), c)
  {
    var s', k := Next(s, step), s.claims[c];
    assert InStep(s, c) && CallsInv(s, c);
    if s' != s && c == step.claim && k.answered == |k.calls| {
      if k.calls == [] {
        FirstToSend(s, c);
        assert Silent(s, k.id);
      }
      assert k.calls[..k.answered] == k.calls && s'.claims[c].calls[..k.answered] == k.calls;
    }
  }

  lemma AnswerInStep(s: State, step: Step, c: nat)
    requires NetInv(s) && ApartInv(s) && step.AnswerStep? && c < |s.claims|
    ensures InStep(Next(s, step), c)
  {
    var s', k := Next(s, step), s.claims[c];
    assert InStep(s, c) && CallsInv(s, c);
    if s' != s && c == step.claim {
      var a := k.answered;
      assert AppliesBatch(k.id, a + 1, k.calls[a]);
      BatchIsOwn(k.id, a + 1, k.calls[a]);
      ArrivedIsUsed([], s.arrived, k.calls[a]);
      OwnHasKey(k.id, Commits(s), k.calls[a].key);
      KeysOfFirst(k.id, k.calls, a, a);
    }
  }

  lemma ArriveInStep(s: State, step: Step, c: nat)
    requires Inv(s) && NetInv(s) && ApartInv(s) && step.ArriveStep? && c < |s.claims|
    ensures InStep(Next(s, step), c)
  {
    var s', k := Next(s, step), s.claims[c];
    assert InStep(s, c) && CallsInv(s, c);
    if step.index < |s.sent| && k.calls != [] {
      var m := s.sent[step.index];
      DeliverSnoc([], s.arrived, m);
      OwnDeliver(k.id, Commits(s), m);
      var d, n := ArrivalOf(s, m);
      if s.claims[d].id == k.id {
        OneSender(s, c, d);
        BatchIsOwn(k.id, n + 1, m);
        NextBatchArrives(k.id, k.calls, k.answered, n);
      } else {
        BatchIsForeign(k.id, s.claims[d].id, n + 1, m);
      }
    }
  }

  lemma ArriveSilent(s: State, step: Step, id: Id)
    requires NetInv(s) && ApartInv(s) && step.ArriveStep?
    ensures Silent(Next(s, step), id)
  {
    assert Silent(s, id);
    if step.index < |s.sent| && Unsent(s, id) {
      var m := s.sent[step.index];
      DeliverSnoc([], s.arrived, m);
      OwnDeliver(id, Commits(s), m);
      var d, n := ArrivalOf(s, m);
      BatchIsForeign(id, s.claims[d].id, n + 1, m);
    }
  }

  /** A step that sends and receives nothing. */
  lemma QuietInStep(s: State, s': State)
    requires NetInv(s) && ApartInv(s) && Quiet(s, s')
    ensures forall c :: 0 <= c < |s'.claims| ==> InStep(s', c)
    ensures forall id :: Silent(s', id)
  {
    forall c | 0 <= c < |s'.claims| ensures InStep(s', c) {
      if c < |s.claims| { assert InStep(s, c) && SameCalls(s.claims[c], s'.claims[c]); }
    }
    forall id ensures Silent(s', id) {
      assert Silent(s, id);
      if Unsent(s', id) {
        forall c | 0 <= c < |s.claims| && s.claims[c].id == id ensures s.claims[c].calls == [] {
          assert SameCalls(s.claims[c], s'.claims[c]);
        }
      }
    }
  }

  lemma SendSilent(s: State, step: Step, id: Id)
    requires ApartInv(s) && (step.SendStep? || step.AnswerStep?)
    ensures Silent(Next(s, step), id)
  {
    var s' := Next(s, step);
    assert Silent(s, id);
    if Unsent(s', id) {
      forall c | 0 <= c < |s.claims| && s.claims[c].id == id ensures s.claims[c].calls == [] {
        assert s'.claims[c].id == id;
      }
    }
  }

  lemma ApartKeeps(s: State, step: Step)
    requires Inv(s) && NetInv(s) && ApartInv(s) && Apart(s, step)
    ensures ApartInv(Next(s, step))
  {
    var s' := Next(s, step);
    if OnNet(step) {
      forall c | 0 <= c < |s'.claims| ensures InStep(s', c) {
        if step.SendStep? {
          SendInStep(s, step, c);
        } else if step.AnswerStep? {
          AnswerInStep(s, step, c);
        } else {
          ArriveInStep(s, step, c);
        }
      }
      forall id ensures Silent(s', id) {
        if step.ArriveStep? { ArriveSilent(s, step, id); } else { SendSilent(s, step, id); }
      }
    } else {
      OthersAreQuiet(s, step);
      QuietInStep(s, s');
    }
    forall c | 0 <= c < |s'.claims| ensures Sending(s', c) { SendingKeeps(s, step, c); }
  }

  lemma {:induction false} ApartRun(steps: seq<Step>)
    requires Along(Apart, steps)
    ensures Along(Timely, steps)
    ensures Inv(Run(INIT, steps)) && NetInv(Run(INIT, steps)) && ApartInv(Run(INIT, steps))
  {
    var s := Run(INIT, steps);
    assert After(INIT, steps, s);
    ReachedInv(s);
    ReachedNet(s);
    if steps != [] {
      ApartRun(steps[..|steps| - 1]);
      ApartKeeps(Run(INIT, steps[..|steps| - 1]), steps[|steps| - 1]);
    }
  }

  // ---- who has made a job succeed ----

  /** The claim has stopped, with every batch of these rows sent and answered. */
  ghost predicate FinishedBy(s: State, c: int, id: Id, rows: seq<Row>) {
    && 0 <= c < |s.claims| && s.claims[c].id == id && s.claims[c].kind == Apply && !s.claims[c].open
    && AllAnswered(s.claims[c]) && s.claims[c].input == Some(rows)
  }

  /** A job that has succeeded was finished by a claim, of its own attempt if workers keep to theirs. */
  ghost predicate Backed(s: State, id: Id, timely: bool) {
    id in s.history && s.history[id] != [] && Final(s.history[id]).change == SucceededChange ==>
      exists c :: FinishedBy(s, c, id, Final(s.history[id]).rows) && (timely ==> Current(s, c))
  }

  function Final(h: History): Entry<Row>
    requires h != []
  {
    h[|h| - 1]
  }

  lemma ClosedStays(s: State, step: Step, c: nat)
    requires c < |s.claims| && !s.claims[c].open
    ensures c < |Next(s, step).claims| && Next(s, step).claims[c] == s.claims[c]
  {
  }

  lemma FinishBacks(s: State, step: Step, timely: bool)
    requires Inv(s) && step.FinishApplyStep? && Running(s, step.claim, Apply) && AllAnswered(s.claims[step.claim])
    requires timely ==> Current(s, step.claim)
    requires FinishingApply(s, s.claims[step.claim], s.claims[step.claim].input.value, step.expires, step.now).Some?
    ensures Backed(Next(s, step), s.claims[step.claim].id, timely)
  {
    var s', k := Next(s, step), s.claims[step.claim];
    RowFacts(s, k.id);
    assert ClaimInv(s, step.claim);
    assert s'.history[k.id] == s.history[k.id] + [Final(s'.history[k.id])];
    assert FinishedBy(s', step.claim, k.id, k.input.value);
    if timely {
      NextChange(s, step, k.id, RetriedChange);
      StaysCurrent(s, s', step.claim);
    }
  }

  lemma SameHistoryBacks(s: State, step: Step, id: Id, timely: bool)
    requires Backed(s, id, timely) && id in s.history && id in Next(s, step).history
    requires Next(s, step).history[id] == s.history[id]
    ensures Backed(Next(s, step), id, timely)
  {
    var s', h := Next(s, step), s.history[id];
    if h != [] && Final(h).change == SucceededChange {
      var c :| FinishedBy(s, c, id, Final(h).rows) && (timely ==> Current(s, c));
      ClosedStays(s, step, c);
      assert FinishedBy(s', c, id, Final(h).rows);
    }
  }

  lemma OtherChangeBacks(s: State, s': State, id: Id, timely: bool)
    requires id in s.history && SameOrNext(s, s', id, SucceededChange) && s'.history[id] != s.history[id]
    ensures Backed(s', id, timely)
  {
  }

  lemma FinishedNextBacks(s: State, step: Step, id: Id, timely: bool)
    requires Inv(s) && step.FinishApplyStep? && (timely ==> Timely(s, step))
    requires id in s.history && id in Next(s, step).history && Next(s, step).history[id] != s.history[id]
    ensures Backed(Next(s, step), id, timely)
  {
    RowFacts(s, s.claims[step.claim].id);
    FinishBacks(s, step, timely);
  }

  /** The last change of the job is a success only if it was one before, or the step has made it so. */
  lemma BackedKeeps(s: State, step: Step, id: Id, timely: bool)
    requires Inv(s) && Backed(s, id, timely) && (timely ==> Timely(s, step))
    ensures Backed(Next(s, step), id, timely)
  {
    var s' := Next(s, step);
    if id in s.history && id in s'.history && s'.history[id] == s.history[id] {
      SameHistoryBacks(s, step, id, timely);
    } else if id in s.history && step.FinishApplyStep? && id in s'.history {
      FinishedNextBacks(s, step, id, timely);
    } else if id in s.history {
      NextChange(s, step, id, SucceededChange);
      OtherChangeBacks(s, s', id, timely);
    } else if id in s'.history {
      FirstChange(s, step, id);
    }
  }

  lemma FirstChange(s: State, step: Step, id: Id)
    requires Inv(s) && id !in s.history && id in Next(s, step).history
    ensures Next(s, step).history[id] != [] && Final(Next(s, step).history[id]).change == CreatedChange
  {
    var s' := Next(s, step);
    RowAndEventTogether(s, step);
    assert Committed(s, s', step.CreateStep?);
    var change, j, rows :| CommitShape(s, s', change, j, rows);
    FirstEntry(s, s', change, j, rows, id);
    RowFacts(s, id);
  }

  lemma FirstEntry(s: State, s': State, change: Change, j: Job, rows: seq<Row>, id: Id)
    requires CommitShape(s, s', change, j, rows) && id !in s.history && id in s'.history
    ensures id == j.id && s'.history[id] == [Entry(change, j, rows)]
  {
  }

  lemma {:induction false} BackedRun(steps: seq<Step>, id: Id, timely: bool)
    requires timely ==> Along(Timely, steps)
    ensures Backed(Run(INIT, steps), id, timely)
  {
    if steps != [] {
      var s := Run(INIT, steps[..|steps| - 1]);
      BackedRun(steps[..|steps| - 1], id, timely);
      assert After(INIT, steps[..|steps| - 1], s);
      ReachedInv(s);
      BackedKeeps(s, steps[|steps| - 1], id, timely);
    }
  }

  // ---- what it comes down to ----

  /** In any run: a job that has succeeded was finished by a claim that got an answer to every batch of
      the rows recorded, so each of their keys has its effect. If all that was ever sent for the job are
      these batches, the provider holds exactly them. */
  lemma SucceededWasAnswered(s: State, id: Id) returns (c: nat)
    requires Reached(s) && id in s.rows && s.rows[id].status == Succeeded
    ensures id in s.history && s.history[id] != [] && FinishedBy(s, c, id, Final(s.history[id]).rows)
    ensures AllUsed(s.claims[c].calls, Commits(s))
    ensures (forall m :: m in s.sent ==> m in s.claims[c].calls || OtherJob(id, m)) ==> Exactly(id, s.claims[c].calls, Commits(s))
  {
    ReachedInv(s);
    ReachedNet(s);
    RowFacts(s, id);
    SucceededLast(s, id);
    var steps :| After(INIT, steps, s);
    RunOf(INIT, steps, s);
    BackedRun(steps, id, false);
    var c' :| FinishedBy(s, c', id, Final(s.history[id]).rows);
    c := c';
    var calls := s.claims[c].calls;
    assert CallsInv(s, c);
    forall i | 0 <= i < |calls| ensures calls[i].ApplyRows? && HasKey(Commits(s), calls[i].key) { AnsweredIsUsed(s, c, i); }
    if forall m :: m in s.sent ==> m in calls || OtherJob(id, m) {
      assert DrawnFrom(id, calls, [], s.arrived);
      OnlyTheseHold(id, calls, [], [], s.arrived);
      ExactlyWhen(s, id, calls);
    }
  }

  lemma SucceededLast(s: State, id: Id)
    requires Inv(s) && id in s.rows && s.rows[id].status == Succeeded
    ensures id in s.history && s.history[id] != [] && Final(s.history[id]).change == SucceededChange
  {
    assert JobInv(s, id);
    var h := s.history[id];
    assert |h| > 1 ==> Legal(h[|h| - 2].job, h[|h| - 1].change, h[|h| - 1].job);
  }

  /** End to end, with the provider: when attempts are kept apart, the provider holds for a job that
      succeeded the rows its own attempt validated, each batch once, in order, and nothing else. */
  lemma SucceededHoldsExactly(s: State, id: Id)
    requires ReachedAlong(Apart, s) && id in s.rows && s.rows[id].status == Succeeded
    ensures var j := s.rows[id]; j.applied == j.valid == j.total == |Contents(Own(id, Commits(s)))|
    ensures var h := Past(s, id);
      && |h| >= 4 && h[|h| - 4].change == ValidatedChange && NoRetry(h, |h| - 4, |h| - 1)
      && Contents(Own(id, Commits(s))) == h[|h| - 4].rows
    ensures DistinctKeys(Own(id, Commits(s)))
  {
    ApartFacts(s);
    SucceededSentAll(s, id);
    var calls := SucceededCalls(s, id);
    EffectContents(id, calls);
    DistinctEffects(id, calls);
  }

  lemma ApartFacts(s: State)
    requires ReachedAlong(Apart, s)
    ensures ReachedAlong(Timely, s) && Inv(s) && NetInv(s) && ApartInv(s)
  {
    var steps :| After(INIT, steps, s) && Along(Apart, steps);
    RunOf(INIT, steps, s);
    ApartRun(steps);
  }

  /** The batches of the claim that has made the job succeed are the effects of the job. */
  lemma SucceededCalls(s: State, id: Id) returns (calls: seq<Message>)
    requires ReachedAlong(Apart, s) && id in s.rows && s.rows[id].status == Succeeded
    ensures id in s.history && s.history[id] != [] && Numbered(id, calls) && RowsIn(calls) == Final(s.history[id]).rows
    ensures Own(id, Commits(s)) == EffectsOf(calls)
  {
    ApartFacts(s);
    SucceededLast(s, id);
    var c := CurrentFinisher(s, id);
    SenderHolds(s, c);
    calls := s.claims[c].calls;
  }

  lemma CurrentFinisher(s: State, id: Id) returns (c: nat)
    requires ReachedAlong(Timely, s) && id in s.history && s.history[id] != [] && Final(s.history[id]).change == SucceededChange
    ensures FinishedBy(s, c, id, Final(s.history[id]).rows) && Current(s, c)
  {
    var steps :| After(INIT, steps, s) && Along(Timely, steps);
    RunOf(INIT, steps, s);
    BackedRun(steps, id, true);
    var c' :| FinishedBy(s, c', id, Final(s.history[id]).rows) && Current(s, c');
    c := c';
  }

  lemma SenderHolds(s: State, c: nat)
    requires Inv(s) && NetInv(s) && ApartInv(s) && c < |s.claims| && s.claims[c].kind == Apply && Current(s, c)
    requires AllAnswered(s.claims[c])
    ensures Numbered(s.claims[c].id, s.claims[c].calls)
    ensures Own(s.claims[c].id, Commits(s)) == EffectsOf(s.claims[c].calls)
  {
    var k := s.claims[c];
    assert CallsInv(s, c) && InStep(s, c) && Silent(s, k.id);
    assert k.calls[..k.answered] == k.calls;
    if k.calls == [] {
      forall d | 0 <= d < |s.claims| && s.claims[d].id == k.id ensures s.claims[d].calls == [] {
        if s.claims[d].calls != [] {
          assert CallsInv(s, d) && Sending(s, d);
          CurrentClaimsDiffer(s, c, d);
        }
      }
    }
  }

  /** After a failure, too, the job's effects are the batches its worker has sent, or all but the last,
      whatever arrives late; and nobody else has sent anything for it. */
  lemma EffectsInStep(s: State, c: nat)
    requires ReachedAlong(Apart, s) && c < |s.claims| && s.claims[c].calls != []
    ensures var k := s.claims[c];
      && k.answered <= |k.calls| <= k.answered + 1
      && (Own(k.id, Commits(s)) == EffectsOf(k.calls[..k.answered]) || Own(k.id, Commits(s)) == EffectsOf(k.calls))
      && (forall m :: m in s.sent ==> m in k.calls || OtherJob(k.id, m))
  {
    ApartFacts(s);
    var k := s.claims[c];
    assert CallsInv(s, c) && InStep(s, c);
    forall m | m in s.sent ensures m in k.calls || OtherJob(k.id, m) {
      var d, n := ArrivalOf(s, m);
      if s.claims[d].id == k.id { OneSender(s, c, d); } else { BatchIsForeign(k.id, s.claims[d].id, n + 1, m); }
    }
  }

  /** A job is retried only if all its workers have stopped and none of them has sent anything. */
  predicate FreshRetries(s: State, step: Step) {
    NoSurvivor(s, step) && (step.RetryStep? ==> Unsent(s, step.id))
  }

  lemma {:induction false} FreshRetriesAreApart(steps: seq<Step>)
    requires Along(FreshRetries, steps)
    ensures Along(Apart, steps) && Along(NoSurvivor, steps)
  {
    if steps != [] {
      var init := steps[..|steps| - 1];
      FreshRetriesAreApart(init);
      assert Along(NoSurvivor, steps);
      NoSurvivorIsTimely(steps);
      NoSurvivorIsTimely(init);
      if steps[|steps| - 1].SendStep? { assert CurrentIfOpen(Run(INIT, init), steps[|steps| - 1].claim); }
    }
  }

  /** The end-to-end theorem for runs in which no worker survives a retry and no job is retried after
      something was sent for it. */
  lemma FreshRetriesHoldExactly(s: State, id: Id)
    requires ReachedAlong(FreshRetries, s) && id in s.rows && s.rows[id].status == Succeeded
    ensures var h := Past(s, id);
      |h| >= 4 && h[|h| - 4].change == ValidatedChange && Contents(Own(id, Commits(s))) == h[|h| - 4].rows
    ensures DistinctKeys(Own(id, Commits(s)))
  {
    var steps :| After(INIT, steps, s) && Along(FreshRetries, steps);
    FreshRetriesAreApart(steps);
    assert ReachedAlong(Apart, s);
    SucceededHoldsExactly(s, id);
  }
}
