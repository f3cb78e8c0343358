/** What runs of the protocol leave with the provider: messages of every worker of a job, of earlier
    attempts and of later ones, arrive at any time, any number of times, in any order. */
module Effects {
  import opened Rows
  import opened Jobs
  import opened Providers
  import opened Deliveries
  import opened Protocol
  import opened Runs

  // ---- every run ----

  /** A claim has sent the first batches of its file, in order; all but the last have been answered,
      and what has been answered has arrived. */
  ghost predicate CallsInv(s: State, c: int)
    requires 0 <= c < |s.claims|
  {
    var k := s.claims[c];
    && Numbered(k.id, k.calls) && k.answered <= |k.calls| <= k.answered + 1
    && (k.calls != [] ==> k.kind == Apply && k.input.Some?)
    && (forall i :: 0 <= i < |k.calls| ==> k.calls[i] in s.sent)
    && (forall i :: 0 <= i < k.answered ==> k.calls[i] in s.arrived)
  }

  ghost predicate SentBy(s: State, c: int, m: Message) {
    0 <= c < |s.claims| && m in s.claims[c].calls
  }

  ghost predicate SentInv(s: State, m: Message) {
    exists c :: SentBy(s, c, m)
  }

  /** Whatever arrives was sent, and whatever was sent is a batch of a claim. */
  ghost predicate NetInv(s: State) {
    && (forall c :: 0 <= c < |s.claims| ==> CallsInv(s, c))
    && (forall m :: m in s.sent ==> SentInv(s, m))
    && (forall m :: m in s.arrived ==> m in s.sent)
  }

  /** The step leaves the messages and what claims have sent alone; new claims have sent nothing. */
  ghost predicate Quiet(s: State, s': State) {
    && s'.sent == s.sent && s'.arrived == s.arrived && |s.claims| <= |s'.claims|
    && (forall c :: 0 <= c < |s'.claims| ==>
          if c < |s.claims| then SameCalls(s.claims[c], s'.claims[c]) else s'.claims[c].calls == [] && s'.claims[c].answered == 0)
  }

  predicate SameCalls(a: Claim, b: Claim) {
    && b.id == a.id && b.kind == a.kind && b.version == a.version && b.calls == a.calls && b.answered == a.answered
    && (a.input.Some? ==> b.input == a.input) && (b.open ==> a.open)
  }

  lemma QuietKeeps(s: State, s': State)
    requires NetInv(s) && Quiet(s, s')
    ensures NetInv(s')
  {
    forall c | 0 <= c < |s'.claims| ensures CallsInv(s', c) {
      if c < |s.claims| { assert CallsInv(s, c) && SameCalls(s.claims[c], s'.claims[c]); }
    }
    forall m | m in s'.sent ensures SentInv(s', m) {
      assert SentInv(s, m);
      var c :| SentBy(s, c, m);
      assert SameCalls(s.claims[c], s'.claims[c]) && SentBy(s', c, m);
    }
  }

  predicate OnNet(step: Step) { step.SendStep? || step.AnswerStep? || step.ArriveStep? }

  lemma CommitIfQuiet(s: State, s1: State, change: Change, updated: Option<Job>, rows: seq<Row>)
    requires Quiet(s, s1)
    ensures Quiet(s, CommitIf(s1, change, updated, rows))
  {
  }

  lemma SelfQuiet(s: State)
    ensures Quiet(s, s)
  {
  }

  lemma CloseQuiet(s: State, c: nat)
    requires c < |s.claims|
    ensures Quiet(s, Close(s, c))
  {
  }

  lemma TakeClaimQuiet(s: State, id: Id, scope: Scope, kind: Kind, now: Time)
    ensures Quiet(s, TakeClaim(s, id, scope, kind, now))
  {
  }

  lemma OthersAreQuiet(s: State, step: Step)
    requires !OnNet(step)
    ensures Quiet(s, Next(s, step))
  {
    SelfQuiet(s);
    match step
    case CreateStep(id, scope, dataset, service, format, key, expires, now, actor) =>
      CommitIfQuiet(s, s, CreatedChange, Some(NewJob(id, scope, dataset, service, format, key, expires, now, actor)), []);
    case DeliverStep(event, now) =>
      if event < |s.outbox| {
        TakeClaimQuiet(s, s.outbox[event].job.id, s.outbox[event].job.scope, Validation, now);
        TakeClaimQuiet(s, s.outbox[event].job.id, s.outbox[event].job.scope, Apply, now);
      }
    case DeleteObjectStep(_) =>
    case PurgeStep(_, _, _, _) =>
    case StoreNormalizedStep(_, _) => WorkerIsQuiet(s, step);
    case LoadNormalizedStep(_) => WorkerIsQuiet(s, step);
    case FinishValidationStep(_, _, _) => WorkerIsQuiet(s, step);
    case FinishApplyStep(_, _, _) => WorkerIsQuiet(s, step);
    case FailStep(_, _, _, _, _) => WorkerIsQuiet(s, step);
    case AbandonStep(_) => WorkerIsQuiet(s, step);
    case _ => RequestIsQuiet(s, step);
  }

  lemma RequestIsQuiet(s: State, step: Step)
    requires step.CompleteUploadStep? || step.CancelStep? || step.RetryStep? || step.ConfirmStep? || step.ExpireStep?
    ensures Quiet(s, Next(s, step))
  {
    SelfQuiet(s);
    match step
    case CompleteUploadStep(id, scope, expected, bytes, checksum, now, actor) =>
      CommitIfQuiet(s, s, RequestedChange, Completing(s, id, scope, expected, bytes, checksum, now, actor), []);
    case CancelStep(id, scope, expected, now, actor) =>
      CommitIfQuiet(s, s, CanceledChange, Canceling(s, id, scope, expected, now, actor), []);
    case RetryStep(id, scope, expected, key, expires, now, actor) =>
      CommitIfQuiet(s, s, RetriedChange, Retrying(s, id, scope, expected, key, expires, now, actor), []);
    case ConfirmStep(id, scope, expected, key, now, actor) =>
      CommitIfQuiet(s, s, ApplyRequestedChange, Confirming(s, id, scope, expected, key, now, actor), []);
    case ExpireStep(id, scope, listed, now) =>
      CommitIfQuiet(s, s, ExpiredChange, Expiring(s, id, scope, listed, now), []);
  }

  lemma StoreIsQuiet(s: State, step: Step)
    requires step.StoreNormalizedStep? || step.LoadNormalizedStep?
    ensures Quiet(s, Next(s, step))
  {
  }

  lemma WorkerIsQuiet(s: State, step: Step)
    requires step.StoreNormalizedStep? || step.LoadNormalizedStep? || step.FinishValidationStep? || step.FinishApplyStep?
          || step.FailStep? || step.AbandonStep?
    ensures Quiet(s, Next(s, step))
  {
    SelfQuiet(s);
    if step.claim < |s.claims| {
      var k, closed := s.claims[step.claim], Close(s, step.claim);
      CloseQuiet(s, step.claim);
      match step
      case StoreNormalizedStep(_, _) => StoreIsQuiet(s, step);
      case LoadNormalizedStep(_) => StoreIsQuiet(s, step);
      case AbandonStep(_) =>
      case FinishValidationStep(c, expires, now) =>
        if k.report.Some? {
          CommitIfQuiet(s, closed, ReportChange(k.report.value), FinishingValidation(s, k, k.report.value, expires, now),
                        k.report.value.normalized);
        }
      case FinishApplyStep(c, expires, now) =>
        if k.input.Some? {
          CommitIfQuiet(s, closed, SucceededChange, FinishingApply(s, k, k.input.value, expires, now), k.input.value);
        }
      case FailStep(c, code, message, expires, now) =>
        CommitIfQuiet(s, closed, FailedChange, Failing(s, k, code, message, expires, now), []);
    }
  }

  lemma SendKeeps(s: State, step: Step)
    requires NetInv(s) && step.SendStep?
    ensures NetInv(Next(s, step))
  {
    var s' := Next(s, step);
    if s' != s {
      forall c | 0 <= c < |s'.claims| ensures CallsInv(s', c) {
        assert CallsInv(s, c);
        assert c != step.claim ==> s'.claims[c] == s.claims[c];
      }
      forall m | m in s'.sent ensures SentInv(s', m) {
        if m in s.sent {
          assert SentInv(s, m);
          var c :| SentBy(s, c, m);
          assert SentBy(s', c, m);
        } else {
          assert SentBy(s', step.claim, m);
        }
      }
    }
  }

  lemma AnswerKeeps(s: State, step: Step)
    requires NetInv(s) && step.AnswerStep?
    ensures NetInv(Next(s, step))
  {
    var s' := Next(s, step);
    if s' != s {
      var k := s.claims[step.claim];
      assert s' == s.(claims := s.claims[step.claim := k.(answered := k.answered + 1)]);
      forall c | 0 <= c < |s'.claims| ensures CallsInv(s', c) { assert CallsInv(s, c); }
      forall m | m in s'.sent ensures SentInv(s', m) {
        assert SentInv(s, m);
        var c :| SentBy(s, c, m);
        assert SentBy(s', c, m);
      }
    }
  }

  lemma ArriveKeeps(s: State, step: Step)
    requires NetInv(s) && step.ArriveStep?
    ensures NetInv(Next(s, step))
  {
    var s' := Next(s, step);
    forall c | 0 <= c < |s'.claims| ensures CallsInv(s', c) { assert CallsInv(s, c); }
    forall m | m in s'.sent ensures SentInv(s', m) {
      assert SentInv(s, m);
      var c :| SentBy(s, c, m);
      assert SentBy(s', c, m);
    }
  }

  lemma NetKeeps(s: State, step: Step)
    requires NetInv(s)
    ensures NetInv(Next(s, step))
  {
    match step
    case SendStep(_, _) => SendKeeps(s, step);
    case AnswerStep(_) => AnswerKeeps(s, step);
    case ArriveStep(_) => ArriveKeeps(s, step);
    case _ =>
      OthersAreQuiet(s, step);
      QuietKeeps(s, Next(s, step));
  }

  lemma {:induction false} NetRun(s: State, steps: seq<Step>)
    requires NetInv(s)
    ensures NetInv(Run(s, steps))
  {
    if steps != [] {
      NetRun(s, steps[..|steps| - 1]);
      NetKeeps(Run(s, steps[..|steps| - 1]), steps[|steps| - 1]);
    }
  }

  lemma ReachedNet(s: State)
    requires Reached(s)
    ensures NetInv(s)
  {
    var steps :| After(INIT, steps, s);
    RunOf(INIT, steps, s);
    NetRun(INIT, steps);
  }

  /** The provider never has two effects under one key. */
  lemma OneEffectPerKey(s: State)
    ensures DistinctKeys(Commits(s))
  {
    KeysStayDistinct([], s.arrived);
  }

  /** Every effect is a batch that some claim of the job has sent. */
  lemma EffectsAreSent(s: State, i: nat) returns (c: nat, n: nat)
    requires Reached(s) && i < |Commits(s)|
    ensures c < |s.claims| && n < |s.claims[c].calls|
    ensures AppliesBatch(s.claims[c].id, n + 1, s.claims[c].calls[n])
    ensures Commits(s)[i] == Effect(s.claims[c].calls[n].key, s.claims[c].calls[n].rows)
  {
    ReachedNet(s);
    var m := EffectArrived([], s.arrived, i);
    c, n := ArrivalOf(s, m);
  }

  lemma {:induction false} EffectArrived(commits: seq<Effect>, ms: seq<Message>, i: nat) returns (m: Message)
    requires |commits| <= i < |DeliverAll(commits, ms)|
    ensures m in ms && m.ApplyRows? && DeliverAll(commits, ms)[i] == Effect(m.key, m.rows)
  {
    var init := DeliverAll(commits, ms[..|ms| - 1]);
    if i < |init| { m := EffectArrived(commits, ms[..|ms| - 1], i); } else { m := ms[|ms| - 1]; }
  }

  /** What has been answered is there: at least once. */
  lemma AnsweredIsUsed(s: State, c: nat, i: nat)
    requires Reached(s) && c < |s.claims| && i < s.claims[c].answered
    ensures i < |s.claims[c].calls| && s.claims[c].calls[i].ApplyRows? && HasKey(Commits(s), s.claims[c].calls[i].key)
  {
    ReachedNet(s);
    assert CallsInv(s, c);
    ArrivedIsUsed([], s.arrived, s.claims[c].calls[i]);
  }

  // ---- order ----

  /** A batch is sent only when the one before it has had its effect. */
  ghost predicate Preceded(s: State, m: Message) {
    m.ApplyRows? && m.batch > 1 ==> HasKey(Commits(s), Key(m.job, m.batch - 1))
  }

  /** The job's effects are under the keys of batches 1, 2, 3, ..., in this order. */
  ghost predicate InOrder(id: Id, commits: seq<Effect>) {
    Ordered(id, Own(id, commits))
  }

  ghost predicate OrderInv(s: State) {
    && (forall m :: m in s.sent ==> Preceded(s, m))
    && (forall id :: InOrder(id, Commits(s)))
  }

  lemma SendPreceded(s: State, step: Step, m: Message)
    requires NetInv(s) && OrderInv(s) && step.SendStep? && m in Next(s, step).sent
    ensures Preceded(Next(s, step), m)
  {
    if m !in s.sent {
      var k := s.claims[step.claim];
      assert CallsInv(s, step.claim) && m == step.request;
      if k.calls != [] {
        var last := k.calls[|k.calls| - 1];
        assert AppliesBatch(k.id, |k.calls|, last);
        ArrivedIsUsed([], s.arrived, last);
      }
    }
  }

  /** With keys in order, the used ones are the first ones. */
  lemma KeysInOrder(id: Id, own: seq<Effect>, n: nat)
    requires Ordered(id, own)
    ensures HasKey(own, Key(id, n)) <==> 1 <= n <= |own|
  {
    if 1 <= n <= |own| {
      assert own[n - 1].key == Key(id, n);
    } else {
      forall i | 0 <= i < |own| ensures own[i].key != Key(id, n) { KeysDiffer(id, i + 1, n); }
    }
  }

  predicate Ordered(id: Id, own: seq<Effect>) {
    forall i :: 0 <= i < |own| ==> own[i].key == Key(id, i + 1)
  }

  lemma AppendOrdered(id: Id, own: seq<Effect>, n: nat, rows: seq<Row>)
    requires Ordered(id, own) && n >= 1 && !HasKey(own, Key(id, n)) && (n > 1 ==> HasKey(own, Key(id, n - 1)))
    ensures Ordered(id, own + [Effect(Key(id, n), rows)])
  {
    KeysInOrder(id, own, n);
    KeysInOrder(id, own, n - 1);
  }

  /** The next batch of a job, or one that has had its effect. */
  lemma OrderDeliver(id: Id, commits: seq<Effect>, n: nat, m: Message)
    requires InOrder(id, commits) && n >= 1 && AppliesBatch(id, n, m) && (n > 1 ==> HasKey(commits, Key(id, n - 1)))
    ensures InOrder(id, Deliver(commits, m))
  {
    var own := Own(id, commits);
    BatchIsOwn(id, n, m);
    OwnDeliver(id, commits, m);
    if n > 1 {
      KeyIsOf(id, n - 1);
      OwnHasKey(id, commits, Key(id, n - 1));
    }
    if !HasKey(own, m.key) { AppendOrdered(id, own, n, m.rows); }
  }

  /** Whose message it is that arrives. */
  lemma ArrivalOf(s: State, m: Message) returns (d: nat, n: nat)
    requires NetInv(s) && m in s.sent
    ensures d < |s.claims| && n < |s.claims[d].calls| && s.claims[d].calls[n] == m && AppliesBatch(s.claims[d].id, n + 1, m)
  {
    assert SentInv(s, m);
    var d' :| SentBy(s, d', m);
    var n' :| 0 <= n' < |s.claims[d'].calls| && s.claims[d'].calls[n'] == m;
    d, n := d', n';
    assert CallsInv(s, d);
  }

  lemma ArriveOrdered(s: State, step: Step, id: Id)
    requires NetInv(s) && OrderInv(s) && step.ArriveStep?
    ensures InOrder(id, Commits(Next(s, step)))
  {
    assert InOrder(id, Commits(s));
    if step.index < |s.sent| {
      var m := s.sent[step.index];
      assert Preceded(s, m);
      var c, n := ArrivalOf(s, m);
      DeliverSnoc([], s.arrived, m);
      if s.claims[c].id == id {
        OrderDeliver(id, Commits(s), n + 1, m);
      } else {
        BatchIsForeign(id, s.claims[c].id, n + 1, m);
        OwnDeliver(id, Commits(s), m);
      }
    }
  }

  lemma OrderKeeps(s: State, step: Step)
    requires NetInv(s) && OrderInv(s)
    ensures OrderInv(Next(s, step))
  {
    var s' := Next(s, step);
    if step.ArriveStep? {
      forall id ensures InOrder(id, Commits(s')) { ArriveOrdered(s, step, id); }
      forall m | m in s'.sent ensures Preceded(s', m) {
        assert Preceded(s, m);
        if step.index < |s.sent| {
          DeliverSnoc([], s.arrived, s.sent[step.index]);
          if m.ApplyRows? && m.batch > 1 { DeliverKeeps(Commits(s), s.sent[step.index], Key(m.job, m.batch - 1)); }
        }
      }
    } else if step.SendStep? {
      forall m | m in s'.sent ensures Preceded(s', m) { SendPreceded(s, step, m); }
      forall id ensures InOrder(id, Commits(s')) { assert InOrder(id, Commits(s)); }
    } else {
      if !step.AnswerStep? { OthersAreQuiet(s, step); }
      assert Commits(s') == Commits(s);
      forall m | m in s'.sent ensures Preceded(s', m) { assert Preceded(s, m); }
      forall id ensures InOrder(id, Commits(s')) { assert InOrder(id, Commits(s)); }
    }
  }

  lemma {:induction false} OrderRun(s: State, steps: seq<Step>)
    requires NetInv(s) && OrderInv(s)
    ensures OrderInv(Run(s, steps))
  {
    if steps != [] {
      OrderRun(s, steps[..|steps| - 1]);
      NetRun(s, steps[..|steps| - 1]);
      OrderKeeps(Run(s, steps[..|steps| - 1]), steps[|steps| - 1]);
    }
  }

  /** In every run, with any number of attempts and workers, the job's effects are those of batches
      1, 2, 3, ..., n, each once, in this order. */
  lemma EffectsAreInOrder(s: State, id: Id)
    requires Reached(s)
    ensures InOrder(id, Commits(s))
  {
    var steps :| After(INIT, steps, s);
    RunOf(INIT, steps, s);
    OrderRun(INIT, steps);
  }

  /** The provider holds for the job the effects of these batches, in order, and nothing else. */
  ghost predicate Exactly(id: Id, calls: seq<Message>, commits: seq<Effect>) {
    Own(id, commits) == EffectsOf(calls)
  }

  /** That is so when every batch has its effect and there is no other one. */
  lemma ExactlyWhen(s: State, id: Id, calls: seq<Message>)
    requires Reached(s) && Numbered(id, calls) && AllUsed(calls, Commits(s))
    ensures Exactly(id, calls, Commits(s)) <==> HoldsOnly(id, calls, Commits(s))
    ensures Exactly(id, calls, Commits(s)) ==> HoldsBatches(calls, Commits(s))
  {
    var commits, own := Commits(s), Own(id, Commits(s));
    if HoldsOnly(id, calls, commits) {
      EffectsAreInOrder(s, id);
      LongEnough(id, calls, commits);
      forall i | 0 <= i < |own| ensures i < |calls| && own[i] == EffectsOf(calls)[i] { InPlace(id, calls, commits, i); }
      if |own| > |calls| { InPlace(id, calls, commits, |calls|); }
    }
    if Exactly(id, calls, commits) {
      forall i | 0 <= i < |commits| && KeyOf(id, commits[i].key) ensures commits[i] in EffectsOf(calls) {
        OwnMember(id, commits, commits[i]);
      }
      assert HoldsOnly(id, calls, commits);
      OnlyHolds(id, calls, commits);
    }
  }

  /** Each effect of the job is the batch of its position. */
  lemma InPlace(id: Id, calls: seq<Message>, commits: seq<Effect>, i: nat)
    requires Numbered(id, calls) && HoldsOnly(id, calls, commits) && InOrder(id, commits) && i < |Own(id, commits)|
    ensures i < |calls| && Own(id, commits)[i] == EffectsOf(calls)[i]
  {
    var e := Own(id, commits)[i];
    OwnMember(id, commits, e);
    var k :| 0 <= k < |calls| && EffectsOf(calls)[k] == e;
    assert AppliesBatch(id, k + 1, calls[k]);
    if k != i { KeysDiffer(id, k + 1, i + 1); }
  }

  lemma LongEnough(id: Id, calls: seq<Message>, commits: seq<Effect>)
    requires Numbered(id, calls) && AllUsed(calls, commits) && InOrder(id, commits)
    ensures |calls| <= |Own(id, commits)|
  {
    if calls != [] {
      var n := |calls|;
      assert AppliesBatch(id, n, calls[n - 1]) && HasKey(commits, calls[n - 1].key);
      KeyIsOf(id, n);
      OwnHasKey(id, commits, Key(id, n));
      KeysInOrder(id, Own(id, commits), n);
    }
  }

  // ---- later states ----

  lemma StepGrows(s: State, step: Step)
    ensures s.sent <= Next(s, step).sent && s.arrived <= Next(s, step).arrived
  {
    if !OnNet(step) { OthersAreQuiet(s, step); }
  }

  lemma {:induction false} NetGrows(s: State, steps: seq<Step>)
    ensures s.sent <= Run(s, steps).sent && s.arrived <= Run(s, steps).arrived
  {
    if steps != [] {
      NetGrows(s, steps[..|steps| - 1]);
      StepGrows(Run(s, steps[..|steps| - 1]), steps[|steps| - 1]);
    }
  }

  lemma LaterGrows(s: State, s': State)
    requires Later(s, s')
    ensures s.sent <= s'.sent && s.arrived <= s'.arrived
  {
    var steps :| After(s, steps, s');
    RunOf(s, steps, s');
    NetGrows(s, steps);
  }

  /** What has arrived since. */
  lemma ArrivedSince(s: State, s': State) returns (newer: seq<Message>)
    requires Later(s, s')
    ensures s'.arrived == s.arrived + newer && s.sent <= s'.sent
    ensures Commits(s') == DeliverAll(Commits(s), newer)
  {
    LaterGrows(s, s');
    newer := s'.arrived[|s.arrived|..];
    assert s'.arrived == s.arrived + newer;
    DeliverAllConcat([], s.arrived, newer);
  }

  lemma LaterReached(s: State, s': State)
    requires Reached(s) && Later(s, s')
    ensures Reached(s')
  {
    var steps :| After(INIT, steps, s);
    var more :| After(s, more, s');
    RunOf(INIT, steps, s);
    RunOf(s, more, s');
    RunConcat(INIT, steps, more);
    assert After(INIT, steps + more, s');
  }

  /** Once every message of the job has its key used, and as long as no new one is sent, the job's
      effects are settled: late copies change nothing. */
  lemma SettledHolds(s: State, s': State, id: Id)
    requires Reached(s) && Later(s, s')
    requires forall m :: m in s'.sent ==> OtherJob(id, m) || HasKey(Commits(s), m.key)
    ensures Own(id, Commits(s')) == Own(id, Commits(s))
  {
    LaterReached(s, s');
    ReachedNet(s');
    var newer := ArrivedSince(s, s');
    forall i | 0 <= i < |newer| ensures OtherJob(id, newer[i]) || HasKey(Commits(s), newer[i].key) {
      assert s'.arrived[|s.arrived| + i] == newer[i];
    }
    LateDeliveriesAreHarmless(id, Commits(s), newer);
  }

  // ---- when a finished apply has put its batches in place ----

  /** The claim is about to send the first of these batches of its file. */
  ghost predicate Starting(s: State, c: nat, calls: seq<Message>) {
    && Reached(s) && Running(s, c, Apply) && s.claims[c].input.Some? && s.claims[c].calls == [] && s.claims[c].answered == 0
    && Numbered(s.claims[c].id, calls)
  }

  /** Some time later the claim has sent all of these batches and got all its answers; for the job, nobody else has
      sent anything in between, but what had been sent before may have arrived at any time. */
  ghost predicate Answered(s0: State, s: State, c: nat, calls: seq<Message>)
    requires c < |s0.claims|
  {
    && Later(s0, s) && c < |s.claims| && s.claims[c].id == s0.claims[c].id
    && s.claims[c].calls == calls && s.claims[c].answered == |calls|
    && (forall m :: m in s.sent ==> m in s0.sent || m in calls || OtherJob(s.claims[c].id, m))
  }

  lemma AnsweredUsesAll(s0: State, s: State, c: nat, calls: seq<Message>)
    requires Starting(s0, c, calls) && Answered(s0, s, c, calls)
    ensures Reached(s) && AllUsed(calls, Commits(s))
  {
    LaterReached(s0, s);
    forall i | 0 <= i < |calls| ensures calls[i].ApplyRows? && HasKey(Commits(s), calls[i].key) { AnsweredIsUsed(s, c, i); }
  }

  lemma AnsweredDraws(s0: State, s: State, c: nat, calls: seq<Message>) returns (newer: seq<Message>)
    requires Starting(s0, c, calls) && Answered(s0, s, c, calls)
    ensures Commits(s) == DeliverAll(Commits(s0), newer) && DrawnFrom(s0.claims[c].id, calls, s0.sent, newer)
  {
    LaterReached(s0, s);
    ReachedNet(s);
    newer := ArrivedSince(s0, s);
    forall i | 0 <= i < |newer| ensures newer[i] in calls || newer[i] in s0.sent || OtherJob(s0.claims[c].id, newer[i]) {
      assert s.arrived[|s0.arrived| + i] == newer[i];
    }
  }

  /** The claim sends what is left of its batches, and each arrives and is answered. */
  lemma {:induction false} Completes(s: State, c: nat, calls: seq<Message>, n: nat) returns (s': State)
    requires Running(s, c, Apply) && s.claims[c].input.Some? && Numbered(s.claims[c].id, calls) && n <= |calls|
    requires s.claims[c].calls == calls[..n] && s.claims[c].answered == n
    ensures Later(s, s') && c < |s'.claims| && s'.claims[c].id == s.claims[c].id
    ensures s'.claims[c].calls == calls && s'.claims[c].answered == |calls|
    ensures s'.sent == s.sent + calls[n..]
    decreases |calls| - n
  {
    if n == |calls| {
      s' := s;
      LaterSelf(s);
      assert calls[..n] == calls && calls[n..] == [];
    } else {
      var s1 := OneMoreAnswer(s, c, calls[n]);
      assert calls[..n] + [calls[n]] == calls[..n + 1];
      s' := Completes(s1, c, calls, n + 1);
      LaterTrans(s, s1, s');
      assert calls[n..] == [calls[n]] + calls[n + 1..];
    }
  }

  lemma OneMoreAnswer(s: State, c: nat, m: Message) returns (s': State)
    requires Running(s, c, Apply) && s.claims[c].input.Some?
    requires s.claims[c].answered == |s.claims[c].calls| && AppliesBatch(s.claims[c].id, |s.claims[c].calls| + 1, m)
    ensures Later(s, s') && Running(s', c, Apply) && s'.claims[c].input.Some? && s'.claims[c].id == s.claims[c].id
    ensures s'.claims[c].calls == s.claims[c].calls + [m] && s'.claims[c].answered == s.claims[c].answered + 1
    ensures s'.sent == s.sent + [m]
  {
    LaterSelf(s);
    var s1 := Next(s, SendStep(c, m));
    LaterNext(s, s, SendStep(c, m));
    assert s1.sent[|s.sent|] == m;
    var s2 := Next(s1, ArriveStep(|s.sent|));
    LaterNext(s, s1, ArriveStep(|s.sent|));
    assert s2.arrived[|s.arrived|] == m;
    s' := Next(s2, AnswerStep(c));
    LaterNext(s, s2, AnswerStep(c));
  }

  lemma LaterTrans(a: State, b: State, c: State)
    requires Later(a, b) && Later(b, c)
    ensures Later(a, c)
  {
    var x :| After(a, x, b);
    var y :| After(b, y, c);
    RunOf(a, x, b);
    RunOf(b, y, c);
    RunConcat(a, x, y);
    assert After(a, x + y, c);
  }

  /** A run in which an earlier message, if any is given, arrives first, and then the claim completes. */
  lemma ArrivesFirst(s0: State, c: nat, calls: seq<Message>, i: nat) returns (s: State, newer: seq<Message>)
    requires Starting(s0, c, calls) && i <= |s0.sent|
    ensures Answered(s0, s, c, calls)
    ensures Commits(s) == DeliverAll(if i < |s0.sent| then Deliver(Commits(s0), s0.sent[i]) else Commits(s0), newer)
  {
    LaterSelf(s0);
    var s1 := Next(s0, ArriveStep(i));
    LaterNext(s0, s0, ArriveStep(i));
    if i < |s0.sent| { DeliverSnoc([], s0.arrived, s0.sent[i]); }
    assert calls[..0] == [] && calls[0..] == calls;
    s := Completes(s1, c, calls, 0);
    LaterTrans(s0, s1, s);
    newer := ArrivedSince(s1, s);
  }

  /** A finished apply has put all batches in place, in every run in which nobody else sends anything
      for the job meanwhile, if and only if every key already used was used for the same rows, and
      everything under way under a key not yet used carries the same rows. */
  lemma HoldsInEveryRun(s0: State, c: nat, calls: seq<Message>)
    requires Starting(s0, c, calls)
    ensures (forall s :: Answered(s0, s, c, calls) ==> HoldsBatches(calls, Commits(s)))
       <==> AllAgree(calls, Commits(s0), s0.sent)
  {
    var id := s0.claims[c].id;
    if AllAgree(calls, Commits(s0), s0.sent) {
      forall s | Answered(s0, s, c, calls) ensures HoldsBatches(calls, Commits(s)) {
        AnsweredUsesAll(s0, s, c, calls);
        var newer := AnsweredDraws(s0, s, c, calls);
        AgreementHolds(id, calls, Commits(s0), s0.sent, newer);
      }
    } else {
      var s := Misplaced(s0, c, calls);
    }
  }

  /** Otherwise there is a run that ends with other rows in the place of a batch. */
  lemma Misplaced(s0: State, c: nat, calls: seq<Message>) returns (s: State)
    requires Starting(s0, c, calls) && !AllAgree(calls, Commits(s0), s0.sent)
    ensures Answered(s0, s, c, calls) && !HoldsBatches(calls, Commits(s))
  {
    var n :| 0 <= n < |calls| && !(calls[n].ApplyRows? && Agrees(calls[n], Commits(s0), s0.sent));
    var key, newer := calls[n].key, [];
    if HasKey(Commits(s0), key) {
      s, newer := ArrivesFirst(s0, c, calls, |s0.sent|);
      RowsStay(Commits(s0), newer, key);
    } else {
      var i :| 0 <= i < |s0.sent| && s0.sent[i].ApplyRows? && s0.sent[i].key == key && s0.sent[i].rows != calls[n].rows;
      s, newer := ArrivesFirst(s0, c, calls, i);
      var commits := Deliver(Commits(s0), s0.sent[i]);
      RowsUnderHas(Commits(s0), key);
      RowsUnderDeliver(Commits(s0), s0.sent[i], key);
      DeliverKeeps(Commits(s0), s0.sent[i], key);
      RowsStay(commits, newer, key);
    }
    assert RowsUnder(Commits(s), key) != Some(calls[n].rows);
  }

  /** It has put its batches and nothing else in place, in every such run, if and only if all effects
      the job had before are among its own, and so is everything under way under a key not yet used. */
  lemma ExactlyInEveryRun(s0: State, c: nat, calls: seq<Message>)
    requires Starting(s0, c, calls)
    ensures (forall s :: Answered(s0, s, c, calls) ==> Exactly(s0.claims[c].id, calls, Commits(s)))
       <==> OnlyThese(s0.claims[c].id, calls, Commits(s0), s0.sent)
  {
    var id := s0.claims[c].id;
    if OnlyThese(id, calls, Commits(s0), s0.sent) {
      forall s | Answered(s0, s, c, calls) ensures Exactly(id, calls, Commits(s)) {
        AnsweredUsesAll(s0, s, c, calls);
        var newer := AnsweredDraws(s0, s, c, calls);
        OnlyTheseHold(id, calls, Commits(s0), s0.sent, newer);
        ExactlyWhen(s, id, calls);
      }
    } else {
      var s := Surplus(s0, c, calls);
      AnsweredUsesAll(s0, s, c, calls);
      ExactlyWhen(s, id, calls);
    }
  }

  /** Otherwise there is a run that ends with something else under a key of the job. */
  lemma Surplus(s0: State, c: nat, calls: seq<Message>) returns (s: State)
    requires Starting(s0, c, calls) && !OnlyThese(s0.claims[c].id, calls, Commits(s0), s0.sent)
    ensures Answered(s0, s, c, calls) && !HoldsOnly(s0.claims[c].id, calls, Commits(s))
  {
    var id, e, newer := s0.claims[c].id, Effect("", []), [];
    if !HoldsOnly(id, calls, Commits(s0)) {
      var n :| 0 <= n < |Commits(s0)| && KeyOf(id, Commits(s0)[n].key) && Commits(s0)[n] !in EffectsOf(calls);
      e := Commits(s0)[n];
      s, newer := ArrivesFirst(s0, c, calls, |s0.sent|);
      EffectStays(Commits(s0), newer, e);
    } else {
      var i :| 0 <= i < |s0.sent| && !OtherJob(id, s0.sent[i]) && !HasKey(Commits(s0), s0.sent[i].key)
               && Effect(s0.sent[i].key, s0.sent[i].rows) !in EffectsOf(calls);
      e := Effect(s0.sent[i].key, s0.sent[i].rows);
      s, newer := ArrivesFirst(s0, c, calls, i);
      var commits := Deliver(Commits(s0), s0.sent[i]);
      assert commits[|Commits(s0)|] == e;
      EffectStays(commits, newer, e);
    }
    assert e in Commits(s) && KeyOf(id, e.key) && e !in EffectsOf(calls);
  }

  /** Others may send for the job meanwhile: whatever they send, agreement of all that was ever sent is
      enough. */
  lemma HoldsDespiteOthers(s0: State, s: State, c: nat, calls: seq<Message>)
    requires Starting(s0, c, calls) && Later(s0, s) && c < |s.claims| && s.claims[c].id == s0.claims[c].id
    requires s.claims[c].calls == calls && s.claims[c].answered == |calls|
    ensures AllAgree(calls, Commits(s0), s.sent) ==> HoldsBatches(calls, Commits(s))
    ensures OnlyThese(s0.claims[c].id, calls, Commits(s0), s.sent) ==> Exactly(s0.claims[c].id, calls, Commits(s))
  {
    var id := s0.claims[c].id;
    LaterReached(s0, s);
    ReachedNet(s);
    forall i | 0 <= i < |calls| ensures calls[i].ApplyRows? && HasKey(Commits(s), calls[i].key) { AnsweredIsUsed(s, c, i); }
    var newer := ArrivedSince(s0, s);
    forall i | 0 <= i < |newer| ensures newer[i] in s.sent { assert s.arrived[|s0.arrived| + i] == newer[i]; }
    if AllAgree(calls, Commits(s0), s.sent) { AgreementHolds(id, calls, Commits(s0), s.sent, newer); }
    if OnlyThese(id, calls, Commits(s0), s.sent) {
      OnlyTheseHold(id, calls, Commits(s0), s.sent, newer);
      ExactlyWhen(s, id, calls);
    }
  }

  /** When the batches of a claim that got all its answers are all that is ever sent for the job, the provider
      holds exactly them, then and later. */
  lemma AnsweredAlone(s: State, later: State, c: nat)
    requires Reached(s) && Later(s, later) && c < |s.claims| && s.claims[c].answered == |s.claims[c].calls|
    requires forall m :: m in later.sent ==> m in s.claims[c].calls || OtherJob(s.claims[c].id, m)
    ensures Exactly(s.claims[c].id, s.claims[c].calls, Commits(later))
  {
    var id, calls := s.claims[c].id, s.claims[c].calls;
    ReachedNet(s);
    assert CallsInv(s, c);
    LaterReached(s, later);
    ReachedNet(later);
    var newer := ArrivedSince(s, later);
    forall i | 0 <= i < |calls| ensures calls[i].ApplyRows? && HasKey(Commits(later), calls[i].key) {
      AnsweredIsUsed(s, c, i);
      KeysStay(Commits(s), newer, calls[i].key);
    }
    OnlyTheseHold(id, calls, [], [], later.arrived);
    ExactlyWhen(later, id, calls);
  }
}
