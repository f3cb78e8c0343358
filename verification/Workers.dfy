/** The import worker: it claims a job when an event is delivered, does the work outside any
    transaction, and finishes or fails the job in one. Others may act in between all the time. */
module Workers {
  import opened Rows
  import opened Jobs
  import opened Lines
  import opened Readers
  import opened Batching
  import opened Providers
  import opened Remotes
  import opened Sessions
  import opened Deliveries
  import opened Files
  import opened Tallies
  import opened Parser
  import opened Histories
  import opened Protocol
  import opened Runs
  import opened Effects
  import opened Attempts
  import opened Pipelines
  import opened Worlds
  import opened Transactions
  import opened Services

  function RequestOf(kind: Kind): Change {
    match kind case Validation => RequestedChange case Apply => ApplyRequestedChange
  }

  function ParseFormat(format: Text): Format {
    if format == Text("csv") then Csv else if format == Text("jsonl") then Jsonl else Unknown
  }

  /** The row belongs to the job the claim was made for. */
  ghost predicate SameJob(j: Job, k: Claim) {
    j.id == k.id && j.scope == k.scope && j.normalizedKey == k.key
  }

  class Worker {
    const world: World
    const limits: Limits
    const resultTTL: int
    const retry: Retry

    constructor (world: World, limits: Limits, resultTTL: int, retry: Retry)
      ensures this.world == world && this.limits == limits && this.resultTTL == resultTTL && this.retry == retry
    {
      this.world, this.limits, this.resultTTL, this.retry := world, limits, resultTTL, retry;
    }

    /** The worker holds claim `c`. */
    ghost predicate Holds(c: nat, kind: Kind)
      reads world
    {
      world.Valid() && Running(world.Now(), c, kind)
    }

    /** The worker stops without having finished or failed its job. */
    method Abandon(c: nat)
      requires world.Valid() && c < |world.claims|
      modifies world
      ensures world.Valid() && world.trace == old(world.trace) + [AbandonStep(c)]
      ensures c < |world.claims| && world.claims[c] == old(world.claims[c]).(open := false)
    {
      world.Become(Close(world.Now(), c), AbandonStep(c));
    }

    lemma RowOfClaim(c: nat, j: Job)
      requires world.Valid() && c < |world.claims|
      requires Find(world.Now(), world.claims[c].scope, world.claims[c].id) == Some(j)
      ensures SameJob(j, world.claims[c])
    {
      world.ValidReached();
      assert ClaimInv(world.Now(), c);
      RowFacts(world.Now(), world.claims[c].id);
    }

    lemma FoundId(scope: Scope, id: Id)
      requires world.Valid() && Find(world.Now(), scope, id).Some?
      ensures Find(world.Now(), scope, id).value.id == id
    {
      world.ValidReached();
      RowFacts(world.Now(), id);
    }

    /** Deliver an event: one conditional UPDATE claims the job, and the row is read afterwards. The claim is
        given up if the update took effect and was reported as failed, or if the row cannot be read. */
    method Claim(event: nat, kind: Kind, now: Time) returns (job: Option<Job>, c: nat)
      requires world.Valid() && event < |world.outbox| && world.outbox[event].change == RequestOf(kind)
      modifies world
      ensures world.Valid() && old(world.trace) <= world.trace
      ensures job.Some? ==>
                && Holds(c, kind) && SameJob(job.value, world.claims[c])
                && world.claims[c].id == old(world.outbox[event].job.id) && world.claims[c].scope == old(world.outbox[event].job.scope)
                && world.claims[c].report.None? && world.claims[c].input.None?
                && world.claims[c].calls == [] && world.claims[c].answered == 0
    {
      var e := world.outbox[event];
      job, c := None, |world.claims|;
      var fails: bool := *;
      var claimed := Claiming(world.Now(), e.job.id, e.job.scope, kind, now);
      if fails || claimed.None? { return; }
      ClaimedRow(e.job.id, e.job.scope, kind, now);
      world.Become(TakeClaim(world.Now(), e.job.id, e.job.scope, kind, now), DeliverStep(event, now));
      var unreported: bool := *;
      if unreported {
        Abandon(c);
        return;
      }
      world.Others(Mine(Some(c), None));
      var r := world.Get(e.job.scope, e.job.id);
      var lost: bool := *;
      if lost || r.Err? {
        Abandon(c);
        return;
      }
      RowOfClaim(c, r.value);
      job := Some(r.value);
    }

    lemma ClaimedRow(id: Id, scope: Scope, kind: Kind, now: Time)
      requires world.Valid() && Claiming(world.Now(), id, scope, kind, now).Some?
      ensures var s := TakeClaim(world.Now(), id, scope, kind, now);
        && |s.claims| == |world.claims| + 1
        && Running(s, |world.claims|, kind) && s.claims[|world.claims|].id == id && s.claims[|world.claims|].scope == scope
        && s.claims[|world.claims|].report.None? && s.claims[|world.claims|].input.None?
        && s.claims[|world.claims|].calls == [] && s.claims[|world.claims|].answered == 0
    {
    }

    /** The end of a transaction that ends claim `c`: the event, the commit, and whatever comes of it. */
    method Settle(tx: Transaction, c: nat, change: Change, updated: Result<Job, DbError>, ghost rows: seq<Row>, ghost step: Step)
      returns (ok: bool)
      requires world.Valid() && Writable(world.codec, step) && c < |world.claims| && IsAnnounced(change)
      requires tx.world == world && tx.deleted.None?
      requires updated.Ok? ==>
                 && tx.write == Some(Entry(change, updated.value, rows))
                 && AmountsTo(world.Now(), Announcing(change, updated.value, rows, Some(c)), step)
      modifies world, tx
      ensures world.Valid() && old(world.trace) <= world.trace
      ensures c < |world.claims| && world.claims[c] == old(world.claims[c]).(open := false)
      ensures ok ==> updated.Ok? && Made(world, step, change, updated.value)
    {
      var failed := tx.Announce(change, updated);
      if !failed { InstalledIsCommit(world.Now(), change, updated.value, rows, Some(c)); }
      ghost var done;
      ok, done := tx.End(failed, Some(c), step);
      if world.claims[c].open { Abandon(c); }
    }

    lemma FailMakes(c: nat, j: Job, code: Text, message: Text, expires: Time, now: Time)
      requires world.Valid() && c < |world.claims| && world.claims[c].open
      requires Failing(world.Now(), world.claims[c], code, message, expires, now) == Some(j)
      ensures AmountsTo(world.Now(), Announcing(FailedChange, j, [], Some(c)), FailStep(c, code, message, expires, now))
      ensures j.id == world.claims[c].id && j.status == Failed && j.errorCode == code && j.errorMessage == message
    {
      FailAmounts(world.Now(), c, j, code, message, expires, now);
      FoundId(world.claims[c].scope, world.claims[c].id);
    }

    /** Fail the job, unless it has moved on. */
    method Fail(c: nat, kind: Kind, code: Text, now: Time) returns (ok: bool)
      requires Holds(c, kind)
      modifies world
      ensures world.Valid() && old(world.trace) <= world.trace
      ensures c < |world.claims| && world.claims[c] == old(world.claims[c]).(open := false)
      ensures ok ==>
                && world.claims[c].id in world.rows && var j := world.rows[world.claims[c].id];
                && j.status == Failed && j.errorCode == code
                && Made(world, FailStep(c, code, j.errorMessage, now + resultTTL, now), FailedChange, j)
    {
      var message: Text := *;
      var k := world.claims[c];
      ghost var s := world.Now();
      var tx := new Transaction(world);
      assert world.Valid() && world.Now() == s;
      var updated := tx.Fail(k, code, message, now + resultTTL, now);
      assert world.Valid() && world.Now() == s;
      if updated.Ok? { FailMakes(c, updated.value, code, message, now + resultTTL, now); }
      ok := Settle(tx, c, FailedChange, updated, [], FailStep(c, code, message, now + resultTTL, now));
    }

    /** Upload the normalized file; whether it has arrived is uncertain if the upload fails. */
    method Upload(c: nat, report: Report) returns (ok: bool)
      requires Holds(c, Validation) && world.claims[c].report.None?
      requires Faithful(report) && Encodable(world.codec, report.normalized)
      modifies world
      ensures Holds(c, Validation) && old(world.trace) <= world.trace
      ensures world.claims[c] == old(world.claims[c]) || world.claims[c] == old(world.claims[c]).(report := Some(report))
      ensures ok ==> world.claims[c].report == Some(report)
      ensures ok ==> world.claims[c].key in world.objects && world.objects[world.claims[c].key] == report.normalized
    {
      ok := *;
      var arrives: bool := *;
      if ok || arrives {
        var s := world.Now();
        world.Become(s.(objects := s.objects[s.claims[c].key := report.normalized],
                        claims := s.claims[c := s.claims[c].(report := Some(report))]),
                     StoreNormalizedStep(c, report));
      }
    }

    lemma FinishValidationMakes(c: nat, j: Job, report: Report, expires: Time, now: Time)
      requires Holds(c, Validation) && world.claims[c].report == Some(report)
      requires FinishingValidation(world.Now(), world.claims[c], report, expires, now) == Some(j)
      ensures AmountsTo(world.Now(), Announcing(ReportChange(report), j, report.normalized, Some(c)),
                        FinishValidationStep(c, expires, now))
      ensures j.id == world.claims[c].id
      ensures j.total == report.counts.total && j.valid == report.counts.valid && j.invalid == report.counts.invalid
    {
      FinishValidationAmounts(world.Now(), c, j, report, expires, now);
      FoundId(world.claims[c].scope, world.claims[c].id);
    }

    method FinishValidation(c: nat, report: Report, now: Time) returns (ok: bool)
      requires Holds(c, Validation) && world.claims[c].report == Some(report)
      modifies world
      ensures world.Valid() && old(world.trace) <= world.trace
      ensures c < |world.claims| && world.claims[c] == old(world.claims[c]).(open := false)
      ensures ok ==>
                && world.claims[c].id in world.rows && var j := world.rows[world.claims[c].id];
                && j.total == report.counts.total && j.valid == report.counts.valid && j.invalid == report.counts.invalid
                && Made(world, FinishValidationStep(c, now + resultTTL, now),
                        ReportChange(report), j)
    {
      var k, change := world.claims[c], ReportChange(report);
      ghost var s := world.Now();
      var tx := new Transaction(world);
      assert world.Valid() && world.Now() == s;
      var updated := tx.FinishValidation(k, report, now + resultTTL, now);
      assert world.Valid() && world.Now() == s;
      if updated.Ok? { FinishValidationMakes(c, updated.value, report, now + resultTTL, now); }
      ok := Settle(tx, c, change, updated, report.normalized, FinishValidationStep(c, now + resultTTL, now));
    }

    /** Whatever claim `c` has stored is the checked outcome of the file it read. */
    ghost predicate Stored(c: nat, job: Job, content: Bytes, answers: seq<Answer>, checked: Option<Checked>)
      reads world
    {
      && c < |world.claims|
      && (world.claims[c].report.Some? ==>
            && checked.Some? && world.claims[c].report.value == checked.value.report
            && CheckedFile(world.codec, ParseFormat(job.format), content, job.checksum, limits, answers, checked.value))
    }

    /** The answers are the provider's responses to the batches of the file. */
    ghost predicate FromProvider(job: Job, content: Bytes, answers: seq<Answer>, log: seq<Exchanged>) {
      limits.batchSize >= 1 && Recorded(job.scope, job.dataset, job.id,
        Batches(RowsOf(world.codec, ParseFormat(job.format), content).rows, limits.batchSize), answers, log)
    }

    /** From the checked file to the end of the claim. */
    method Persist(c: nat, ghost job: Job, ghost content: Bytes, ghost answers: seq<Answer>, checked: Checked, now: Time)
      returns (ok: bool)
      requires Holds(c, Validation) && world.claims[c].report.None?
      requires CheckedFile(world.codec, ParseFormat(job.format), content, job.checksum, limits, answers, checked)
      modifies world
      ensures world.Valid() && old(world.trace) <= world.trace
      ensures Stored(c, job, content, answers, Some(checked)) && !world.claims[c].open
      ensures ok ==>
                && world.claims[c].id in world.rows && var j := world.rows[world.claims[c].id];
                && j.total == checked.report.counts.total && j.valid == checked.report.counts.valid
                && j.invalid == checked.report.counts.invalid
                && Made(world, FinishValidationStep(c, now + resultTTL, now),
                        if j.invalid > 0 then ValidationFailedChange else ValidatedChange, j)
    {
      ok := false;
      JudgementIsFaithful(world.codec, RowsOf(world.codec, ParseFormat(job.format), content).rows, limits, answers,
                          checked.report, checked.errors);
      var uploaded := Upload(c, checked.report);
      world.Others(Mine(Some(c), None));
      if !uploaded {
        var _ := Fail(c, Validation, Text("normalized_upload_failed"), now);
        return;
      }
      var reported: bool := *;
      if checked.report.counts.invalid > 0 && !reported {
        var _ := Fail(c, Validation, Text("error_report_upload_failed"), now);
        return;
      }
      ok := FinishValidation(c, checked.report, now);
    }

    /** Validate the file of a job whose upload was announced. `log` is what the provider was asked and answered. */
    method Validate(event: nat, now: Time)
      returns (ok: bool, claim: Option<nat>, ghost log: seq<Exchanged>, ghost job: Option<Job>, ghost content: Bytes,
               ghost answers: seq<Answer>, ghost checked: Option<Checked>)
      requires world.Valid() && Lawful(world.codec) && event < |world.outbox| && world.outbox[event].change == RequestedChange
      modifies world
      ensures world.Valid() && old(world.trace) <= world.trace
      ensures claim.Some? <==> job.Some?
      ensures claim.Some? ==> Stored(claim.value, job.value, content, answers, checked) && !world.claims[claim.value].open
      ensures checked.Some? ==> job.Some? && FromProvider(job.value, content, answers, log)
      ensures ok ==> claim.Some? && checked.Some?
      ensures ok ==>
                && world.claims[claim.value].id in world.rows && var j := world.rows[world.claims[claim.value].id];
                && j.total == |RowsOf(world.codec, ParseFormat(job.value.format), content).rows|
                && j.valid == |Normalized(answers)| && j.invalid == InvalidCount(answers)
                && Made(world, FinishValidationStep(claim.value, now + resultTTL, now),
                        if j.invalid > 0 then ValidationFailedChange else ValidatedChange, j)
    {
      ok, claim, job, content, answers, checked := false, None, None, [], [], None;
      log := [];
      var row, c := Claim(event, Validation, now);
      if row.None? { return; }
      claim, job := Some(c), row;
      world.Others(Mine(Some(c), None));
      var found: bool := *;
      var file: Bytes := *;
      if !found {
        var _ := Fail(c, Validation, Text("source_unavailable"), now);
        return;
      }
      content := file;
      var source := new Source(file);
      var remote := new Remote(world, c);
      var session := new Session(remote, row.value.scope, row.value.dataset, retry);
      var r;
      ghost var calls;
      r, answers, calls := JudgeFile(world.codec, source, ParseFormat(row.value.format), row.value.checksum, limits, session,
                              row.value.scope, row.value.dataset, row.value.id);
      log := remote.log;
      world.Others(Mine(Some(c), None));
      if r.Broke? {
        var _ := Fail(c, Validation, r.code, now);
        return;
      }
      checked := Some(r.value);
      ok := Persist(c, row.value, content, answers, r.value, now);
    }

    /** Open the normalized file: from here on the worker reads the object as it was at this moment. */
    method Load(c: nat) returns (file: Bytes, ok: bool)
      requires Holds(c, Kind.Apply) && world.claims[c].input.None?
      modifies world
      ensures Holds(c, Kind.Apply) && old(world.trace) <= world.trace
      ensures world.claims[c] == old(world.claims[c]).(input := world.claims[c].input) && (ok <==> world.claims[c].input.Some?)
      ensures ok ==>
                && Encodable(world.codec, world.claims[c].input.value)
                && file == Encoded(world.codec, world.claims[c].input.value)
    {
      world.Look();
      var s, key := world.Now(), world.claims[c].key;
      file, ok := [], *;
      ok := ok && key in world.objects;
      if ok {
        file := Encoded(world.codec, world.objects[key]);
        world.Become(s.(claims := s.claims[c := s.claims[c].(input := Some(s.objects[key]))]), LoadNormalizedStep(c));
      }
    }

    lemma FinishApplyMakes(c: nat, j: Job, rows: seq<Row>, expires: Time, now: Time)
      requires Holds(c, Kind.Apply) && AllAnswered(world.claims[c]) && world.claims[c].input == Some(rows)
      requires FinishingApply(world.Now(), world.claims[c], rows, expires, now) == Some(j)
      ensures AmountsTo(world.Now(), Announcing(SucceededChange, j, rows, Some(c)), FinishApplyStep(c, expires, now))
      ensures j.id == world.claims[c].id && j.applied == |rows|
    {
      FinishApplyAmounts(world.Now(), c, j, rows, expires, now);
      FoundId(world.claims[c].scope, world.claims[c].id);
    }

    method FinishApply(c: nat, applied: int, now: Time) returns (ok: bool)
      requires Holds(c, Kind.Apply) && AllAnswered(world.claims[c]) && applied == |world.claims[c].input.value|
      modifies world
      ensures world.Valid() && old(world.trace) <= world.trace
      ensures c < |world.claims| && world.claims[c] == old(world.claims[c]).(open := false)
      ensures ok ==>
                && world.claims[c].id in world.rows && world.rows[world.claims[c].id].applied == applied
                && Made(world, FinishApplyStep(c, now + resultTTL, now), SucceededChange, world.rows[world.claims[c].id])
    {
      var k, rows := world.claims[c], world.claims[c].input.value;
      ghost var s := world.Now();
      var tx := new Transaction(world);
      assert world.Valid() && world.Now() == s;
      var updated := tx.FinishApply(k, rows, now + resultTTL, now);
      assert world.Valid() && world.Now() == s;
      if updated.Ok? { FinishApplyMakes(c, updated.value, rows, now + resultTTL, now); }
      ok := Settle(tx, c, SucceededChange, updated, rows, FinishApplyStep(c, now + resultTTL, now));
    }

    /** The row counts the rows the claim has loaded, and the claim has sent all their batches, in order, and
        got all the answers. */
    ghost predicate Applied(c: nat, job: Job, calls: seq<ParsedBatch>)
      reads world
    {
      && c < |world.claims| && world.claims[c].id == job.id && world.claims[c].input.Some? && limits.batchSize >= 1
      && calls == Batches(world.claims[c].input.value, limits.batchSize)
      && world.claims[c].calls == Messages(job.scope, job.dataset, job.id, calls) && world.claims[c].answered == |calls|
      && job.id in world.rows && world.rows[job.id].applied == |world.claims[c].input.value|
    }

    /** What the provider holds for the claim, from what it held and what had been sent before: every batch, if
        all keys used before and all messages ever sent agree, and nothing else, if there is nothing else. */
    ghost predicate InPlace(before: State, c: nat, calls: seq<Message>)
      reads world
    {
      && Starting(before, c, calls) && Later(before, world.Now())
      && (AllAgree(calls, Commits(before), world.sent) ==> HoldsBatches(calls, Commits(world.Now())))
      && (OnlyThese(before.claims[c].id, calls, Commits(before), world.sent) ==>
            Exactly(before.claims[c].id, calls, Commits(world.Now())))
    }

    /** The loaded file has been applied. */
    lemma Placed(before: seq<Step>, s: State, c: nat, job: Job, calls: seq<ParsedBatch>)
      requires world.Valid() && After(INIT, before, s) && before <= world.trace && Applied(c, job, calls)
      requires Running(s, c, Kind.Apply) && s.claims[c].input.Some? && s.claims[c].calls == [] && s.claims[c].answered == 0
      requires s.claims[c].id == job.id
      ensures InPlace(s, c, Messages(job.scope, job.dataset, job.id, calls))
    {
      var ms := Messages(job.scope, job.dataset, job.id, calls);
      BatchesSequential(world.claims[c].input.value, limits.batchSize);
      MessagesOfBatches(job.scope, job.dataset, job.id, calls);
      EarlierWorld(world, before, s);
      HoldsDespiteOthers(s, world.Now(), c, ms);
    }

    /** Apply the normalized file of a job whose apply was confirmed. Others may send for the job meanwhile, and
        what was sent before may still arrive. `before` is the world at the moment the file was loaded. */
    method Apply(event: nat, now: Time)
      returns (ok: bool, claim: Option<nat>, ghost before: State, ghost job: Option<Job>, ghost calls: seq<ParsedBatch>)
      requires world.Valid() && Lawful(world.codec) && event < |world.outbox| && world.outbox[event].change == ApplyRequestedChange
      modifies world
      ensures world.Valid() && old(world.trace) <= world.trace
      ensures claim.None? ==> !ok && job.None? && calls == []
      ensures claim.Some? ==>
                && claim.value < |world.claims| && !world.claims[claim.value].open
                && job.Some? && SameJob(job.value, world.claims[claim.value])
                && Sequential(calls) && SentFirst(claim.value, job.value, calls)
      ensures ok ==>
                && claim.Some? && Applied(claim.value, job.value, calls)
                && InPlace(before, claim.value, Messages(job.value.scope, job.value.dataset, job.value.id, calls))
                && Made(world, FinishApplyStep(claim.value, now + resultTTL, now), SucceededChange, world.rows[job.value.id])
    {
      ok, claim, job, calls, before := false, None, None, [], INIT;
      var row, c := Claim(event, Kind.Apply, now);
      if row.None? { return; }
      claim, job := Some(c), row;
      assert Messages(row.value.scope, row.value.dataset, row.value.id, []) == [];
      world.Others(Mine(Some(c), None));
      var file, found := Load(c);
      if !found {
        var _ := Fail(c, Kind.Apply, Text("normalized_source_unavailable"), now);
        return;
      }
      ok, before, calls := SendAll(c, row.value, file, now);
    }

    /** The claim has sent the batches handed over, or all but the last. */
    ghost predicate SentFirst(c: nat, job: Job, calls: seq<ParsedBatch>)
      reads world
    {
      c < |world.claims| && var sent := world.claims[c].calls;
      || sent == Messages(job.scope, job.dataset, job.id, calls)
      || (calls != [] && sent == Messages(job.scope, job.dataset, job.id, calls[..|calls| - 1]))
    }

    /** From the loaded file to the end of the claim. */
    method SendAll(c: nat, job: Job, file: Bytes, now: Time)
      returns (ok: bool, ghost before: State, ghost calls: seq<ParsedBatch>)
      requires Holds(c, Kind.Apply) && Lawful(world.codec) && SameJob(job, world.claims[c])
      requires world.claims[c].input.Some? && world.claims[c].calls == [] && world.claims[c].answered == 0
      requires Encodable(world.codec, world.claims[c].input.value) && file == Encoded(world.codec, world.claims[c].input.value)
      modifies world
      ensures world.Valid() && old(world.trace) <= world.trace
      ensures c < |world.claims| && !world.claims[c].open && SameJob(job, world.claims[c])
      ensures Sequential(calls) && SentFirst(c, job, calls)
      ensures ok ==>
                && Applied(c, job, calls) && InPlace(before, c, Messages(job.scope, job.dataset, job.id, calls))
                && Made(world, FinishApplyStep(c, now + resultTTL, now), SucceededChange, world.rows[job.id])
    {
      before := world.Now();
      ghost var trace, input := world.trace, world.claims[c].input.value;
      ReadBack(world.codec, input);
      var r;
      r, calls := SendFile(c, job, file);
      world.Others(Mine(Some(c), None));
      if r.Broke? {
        var _ := Fail(c, Kind.Apply, r.code, now);
        ok := false;
        return;
      }
      ok := FinishSent(c, job, input, calls, r.value, now);
      if ok { Placed(trace, before, c, job, calls); }
    }

    /** Every batch of the loaded rows has been sent and answered. */
    method FinishSent(c: nat, ghost job: Job, ghost input: seq<Row>, ghost calls: seq<ParsedBatch>, applied: int, now: Time)
      returns (ok: bool)
      requires Holds(c, Kind.Apply) && SameJob(job, world.claims[c]) && world.claims[c].input == Some(input)
      requires limits.batchSize >= 1 && applied == |input| && calls == Batches(input, limits.batchSize)
      requires world.claims[c].calls == Messages(job.scope, job.dataset, job.id, calls) && world.claims[c].answered == |calls|
      modifies world
      ensures world.Valid() && old(world.trace) <= world.trace
      ensures c < |world.claims| && world.claims[c] == old(world.claims[c]).(open := false)
      ensures ok ==>
                && Applied(c, job, calls)
                && Made(world, FinishApplyStep(c, now + resultTTL, now), SucceededChange, world.rows[job.id])
    {
      BatchesSequential(input, limits.batchSize);
      MessagesOfBatches(job.scope, job.dataset, job.id, calls);
      BatchesPartition(input, limits.batchSize);
      ok := FinishApply(c, applied, now);
    }

    /** Stream the loaded file to the provider. */
    method SendFile(c: nat, job: Job, file: Bytes) returns (r: Outcome<int>, ghost calls: seq<ParsedBatch>)
      requires Holds(c, Kind.Apply) && SameJob(job, world.claims[c])
      requires world.claims[c].input.Some? && world.claims[c].calls == [] && world.claims[c].answered == 0
      modifies world
      ensures Holds(c, Kind.Apply) && old(world.trace) <= world.trace
      ensures SameButCalls(old(world.claims[c]), world.claims[c])
      ensures Sequential(calls) && SentFirst(c, job, calls)
      ensures r.Done? ==>
                && limits.batchSize >= 1 && r.value == |JsonRows(world.codec, file).rows|
                && calls == Batches(JsonRows(world.codec, file).rows, limits.batchSize)
                && world.claims[c].calls == Messages(job.scope, job.dataset, job.id, calls) && world.claims[c].answered == |calls|
    {
      var source := new Source(file);
      var remote := new Remote(world, c);
      var session := new Session(remote, job.scope, job.dataset, retry);
      r, calls := ApplyFile(world.codec, source, limits, session, job.scope, job.dataset, job.id);
    }

    /** Exactly once: if the batches of a finished apply are all that was ever sent for the job, the provider
        holds them for the job, each once, in order, and nothing else, now and as long as nothing else is sent. */
    lemma AppliedExactlyOnce(c: nat, job: Job, calls: seq<ParsedBatch>, later: State)
      requires world.Valid() && Applied(c, job, calls) && Later(world.Now(), later)
      requires forall m :: m in later.sent ==> m in world.claims[c].calls || OtherJob(job.id, m)
      ensures Own(job.id, Commits(later)) == EffectsOf(world.claims[c].calls)
      ensures Contents(Own(job.id, Commits(later))) == world.claims[c].input.value
    {
      world.ValidReached();
      var s, ms := world.Now(), world.claims[c].calls;
      BatchesSequential(world.claims[c].input.value, limits.batchSize);
      MessagesOfBatches(job.scope, job.dataset, job.id, calls);
      BatchesPartition(world.claims[c].input.value, limits.batchSize);
      ReachedNet(s);
      assert CallsInv(s, c);
      LaterReached(s, later);
      AnsweredAlone(s, later, c);
      EffectContents(job.id, ms);
    }

    /** An event arrives, perhaps not for the first time and perhaps late. One that announces another
        change than its consumer expects is refused. */
    method Handle(event: nat, expected: Kind, now: Time)
      returns (ok: bool, claim: Option<nat>, ghost before: State, ghost job: Option<Job>, ghost calls: seq<ParsedBatch>)
      requires world.Valid() && Lawful(world.codec) && event < |world.outbox|
      modifies world
      ensures world.Valid() && old(world.trace) <= world.trace
      ensures old(world.outbox[event].change) != RequestOf(expected) ==> !ok && claim.None? && world.trace == old(world.trace)
      ensures claim.Some? ==> claim.value < |world.claims| && !world.claims[claim.value].open
      ensures ok && expected == Kind.Apply ==>
                && claim.Some? && job.Some? && Applied(claim.value, job.value, calls)
                && InPlace(before, claim.value, Messages(job.value.scope, job.value.dataset, job.value.id, calls))
    {
      ok, claim, before, job, calls := false, None, INIT, None, [];
      if world.outbox[event].change != RequestOf(expected) { return; }
      ghost var log, content, answers, checked;
      match expected
      case Validation =>
        ok, claim, log, job, content, answers, checked := Validate(event, now);
      case Apply =>
        ok, claim, before, job, calls := Apply(event, now);
    }
  }

  /** The end-to-end theorem, for the world the operations run in: as long as workers have stored, sent and
      finished within their own attempts, and nothing was sent for a job before it was retried, the provider
      holds for a job that succeeded the rows its own attempt validated, each batch once and nothing else. */
  lemma SucceededInWorld(w: World, id: Id)
    requires w.Valid() && Along(Apart, w.trace) && id in w.rows && w.rows[id].status == Succeeded
    ensures var j, h := w.rows[id], Past(w.Now(), id);
      && j.applied == j.valid == j.total
      && |h| >= 4 && h[|h| - 4].change == ValidatedChange
      && Contents(Own(id, DeliverAll([], w.arrived))) == h[|h| - 4].rows
  {
    SucceededHoldsExactly(w.Now(), id);
  }
}
