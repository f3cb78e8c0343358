/** The two streaming phases of an import: judge the uploaded file, and apply the normalized one. */
module Pipelines {
  import opened Rows
  import opened Jobs
  import opened Lines
  import opened Readers
  import opened Batching
  import opened Providers
  import opened Sessions
  import opened Files
  import opened Outputs
  import opened Deliveries
  import opened Tallies
  import opened Consumers
  import opened Parser
  import opened Protocol

  // ---- what a finished validation has established ----

  datatype Limits = Limits(batchSize: int, maxRows: int, maxBytes: int)

  predicate Positive(l: Limits) { l.batchSize >= 1 && l.maxRows >= 1 && l.maxBytes >= 1 }

  /** The provider's answers to the batches of a file, and the counters, the normalized rows and the
      error report they add up to. */
  ghost predicate Judgement(c: Codec, rows: seq<Row>, l: Limits, answers: seq<Answer>, r: Report, report: Bytes) {
    && Positive(l) && |rows| <= l.maxRows
    && |answers| == |Batches(rows, l.batchSize)|
    && (forall i :: 0 <= i < |answers| ==> Acceptable(c, Batches(rows, l.batchSize)[i], answers[i]))
    && r.counts == Counts(|rows|, |Normalized(answers)|, InvalidCount(answers))
    && r.normalized == Normalized(answers)
    && Encodable(c, r.normalized) && |Encoded(c, r.normalized)| <= l.maxBytes
    && report == ReportBody(c, Issues(answers)) && |report| <= l.maxBytes
  }

  /** Every row of the file is counted once, and the valid ones are those that were normalized. */
  lemma JudgementIsFaithful(c: Codec, rows: seq<Row>, l: Limits, answers: seq<Answer>, r: Report, report: Bytes)
    requires Judgement(c, rows, l, answers, r, report)
    ensures Faithful(r) && r.counts.total == |rows|
  {
    CountsConserve(c, Batches(rows, l.batchSize), answers);
    BatchesPartition(rows, l.batchSize);
  }

  /** With a provider that judges each row by its number and content, the result does not depend on
      the batch size: it is the one of judging row after row. */
  lemma BatchSizeIndependence(c: Codec, judge: (int, Row) -> Verdict, rows: seq<Row>, l: Limits, answers: seq<Answer>,
                              r: Report, report: Bytes)
    requires RowWise(judge) && Judgement(c, rows, l, answers, r, report)
    requires AnswersByRow(judge, Batches(rows, l.batchSize), answers)
    ensures var all := Judged(judge, 2, rows);
      && r.normalized == all.normalized
      && r.counts == Counts(|rows|, |all.normalized|, |RowsWithIssues(all.issues)|)
      && report == ReportBody(c, all.issues)
  {
    BatchesDoNotMatter(judge, rows, l.batchSize, answers);
    JudgementIsFaithful(c, rows, l, answers, r, report);
    JudgedCounts(judge, 2, rows);
  }

  /** Two validations of one file by a provider that judges row by row have the same result, whatever
      their batch sizes and limits. The logs are the requests and responses of the two sessions. */
  lemma SameResult(c: Codec, judge: (int, Row) -> Verdict, format: Format, content: Bytes, checksum: Text,
                   scope: Scope, dataset: Text, job: Id,
                   l1: Limits, answers1: seq<Answer>, v1: Checked, log1: seq<Exchanged>,
                   l2: Limits, answers2: seq<Answer>, v2: Checked, log2: seq<Exchanged>)
    requires RowWise(judge) && JudgedByRow(judge, log1) && JudgedByRow(judge, log2)
    requires CheckedFile(c, format, content, checksum, l1, answers1, v1)
    requires CheckedFile(c, format, content, checksum, l2, answers2, v2)
    requires Recorded(scope, dataset, job, Batches(RowsOf(c, format, content).rows, l1.batchSize), answers1, log1)
    requires Recorded(scope, dataset, job, Batches(RowsOf(c, format, content).rows, l2.batchSize), answers2, log2)
    ensures v1 == v2
  {
    var rows := RowsOf(c, format, content).rows;
    RecordedByRow(judge, scope, dataset, job, Batches(rows, l1.batchSize), answers1, log1);
    RecordedByRow(judge, scope, dataset, job, Batches(rows, l2.batchSize), answers2, log2);
    BatchSizeIndependence(c, judge, rows, l1, answers1, v1.report, v1.errors);
    BatchSizeIndependence(c, judge, rows, l2, answers2, v2.report, v2.errors);
  }

  /** Limits agree across the phases: a normalized file written under the limits of its validation
      is never refused by them when it is streamed again; only a row whose encoding does not fit the
      line buffer can stop it. */
  lemma LimitsAgree(c: Codec, rows: seq<Row>, l: Limits, answers: seq<Answer>, r: Report, report: Bytes,
                    batchSize: int, calls: seq<ParsedBatch>, e: Error)
    requires Lawful(c) && Judgement(c, rows, l, answers, r, report)
    requires Refused(c, Jsonl, Encoded(c, r.normalized), batchSize, l.maxRows, l.maxBytes, calls, e)
    ensures FromConsumer(e) || e.ContextDone? ||
            (e.TokenTooLong? && exists i :: 0 <= i < |r.normalized| && |c.encode(r.normalized[i]).value| >= MAX_TOKEN)
  {
    ReadBack(c, r.normalized);
    JudgementIsFaithful(c, rows, l, answers, r, report);
    var content := Encoded(c, r.normalized);
    if e.TokenTooLong? {
      var i :| 0 <= i < |Split(content)| && |Split(content)[i]| >= MAX_TOKEN;
      assert |c.encode(r.normalized[i]).value| >= MAX_TOKEN;
    }
  }

  /** And if no encoding is that long, streaming the file delivers exactly the normalized rows. */
  lemma ReadBackWhole(c: Codec, rows: seq<Row>, batchSize: int, maxRows: int, maxBytes: int,
                      calls: seq<ParsedBatch>, result: ParseResult)
    requires Lawful(c) && Encodable(c, rows)
    requires Delivered(c, Jsonl, Encoded(c, rows), batchSize, maxRows, maxBytes, calls, result)
    ensures calls == Batches(rows, batchSize) && Flatten(calls) == rows
    ensures forall i :: 0 <= i < |rows| ==> |c.encode(rows[i]).value| < MAX_TOKEN
  {
    ReadBack(c, rows);
    BatchesPartition(rows, batchSize);
    forall i | 0 <= i < |rows| ensures |c.encode(rows[i]).value| < MAX_TOKEN {
      assert Split(Encoded(c, rows))[i] == c.encode(rows[i]).value;
    }
  }

  /** Reading back exactly: when neither the consumer, the context nor storage fails, a normalized file
      made under the limits is delivered if and only if every encoding is shorter than the line buffer. */
  lemma ReadBackExactly(c: Codec, rows: seq<Row>, l: Limits, calls: seq<ParsedBatch>, result: ParseResult, err: Option<Error>)
    requires Lawful(c) && Encodable(c, rows) && |rows| <= l.maxRows && |Encoded(c, rows)| <= l.maxBytes
    requires err.None? ==> Delivered(c, Jsonl, Encoded(c, rows), l.batchSize, l.maxRows, l.maxBytes, calls, result)
    requires err.Some? ==> Refused(c, Jsonl, Encoded(c, rows), l.batchSize, l.maxRows, l.maxBytes, calls, err.value)
    requires err.Some? ==> !FromConsumer(err.value) && !err.value.ContextDone?
    ensures err.None? <==> forall i :: 0 <= i < |rows| ==> |c.encode(rows[i]).value| < MAX_TOKEN
  {
    ReadBack(c, rows);
    var lines := Split(Encoded(c, rows));
    if err.None? {
      ReadBackWhole(c, rows, l.batchSize, l.maxRows, l.maxBytes, calls, result);
    } else {
      var i :| 0 <= i < |lines| && |lines[i]| >= MAX_TOKEN;
      assert |c.encode(rows[i]).value| >= MAX_TOKEN;
    }
  }

  // ---- validation ----

  /** How a phase ends: with its result, or with the error code its job fails with. */
  datatype Outcome<T> = Done(value: T) | Broke(code: Text, cause: Error)

  datatype Checked = Checked(report: Report, normalized: Bytes, errors: Bytes)

  function ValidationErrorCode(e: Error): Text {
    if e.RowLimitExceeded? then Text("row_limit_exceeded")
    else if e.ByteLimitExceeded? then Text("byte_limit_exceeded")
    else if e.OutputLimitExceeded? then Text("output_limit_exceeded")
    else if e.InvalidHeader? || e.InvalidProviderResponse? then Text("invalid_input")
    else if e.ChecksumMismatch? then Text("checksum_mismatch")
    else Text("validation_failed")
  }

  /** A finished validation: the file is the one the user announced, it is within the limits, and
      the outputs are those of the provider's answers to its rows. */
  ghost predicate CheckedFile(c: Codec, format: Format, content: Bytes, checksum: Text, l: Limits,
                              answers: seq<Answer>, v: Checked)
  {
    && RowsOf(c, format, content).ok && Readable(c, format, content)
    && |content| <= l.maxBytes && c.fold(c.digest(content)) == c.fold(checksum)
    && Judgement(c, RowsOf(c, format, content).rows, l, answers, v.report, v.errors)
    && v.normalized == Encoded(c, v.report.normalized)
  }

  /** An error that is blamed on an answer is the fault of the provider's answers to the batches handed over. */
  ghost predicate OwnFault(c: Codec, l: Limits, scope: Scope, dataset: Text, job: Id, e: Error,
                           calls: seq<ParsedBatch>, answers: seq<Answer>, log: seq<Exchanged>)
  {
    Recorded(scope, dataset, job, calls, answers, log) && Justified(c, e, calls, answers, l.maxBytes, l.maxBytes)
  }

  /** The last part of a validation: flush the report, close the source, compare the checksum. */
  method Conclude(consumer: Consumer, format: Format, content: Bytes, checksum: Text, l: Limits,
                  result: ParseResult, failure: Option<Error>)
    returns (r: Outcome<Checked>, ghost answers: seq<Answer>)
    requires Lawful(consumer.codec) && consumer.Valid() && consumer.role.Validating? && Positive(l)
    requires failure.Some? && FromConsumer(failure.value) ==> consumer.failed && consumer.fault == failure
    requires consumer.role.normalized.limit == consumer.role.report.out.limit == l.maxBytes
    requires failure.None? ==>
               && !consumer.failed
               && Delivered(consumer.codec, format, content, l.batchSize, l.maxRows, l.maxBytes, consumer.calls, result)
    modifies consumer.role.report, consumer.role.report.out
    ensures consumer.session.Valid()
    ensures r.Done? ==>
              && failure.None? && CheckedFile(consumer.codec, format, content, checksum, l, answers, r.value)
              && Recorded(consumer.scope, consumer.dataset, consumer.job,
                          Batches(RowsOf(consumer.codec, format, content).rows, l.batchSize), answers, consumer.session.remote.log)
    ensures r.Broke? ==> r.code == ValidationErrorCode(r.cause)
    ensures r.Broke? && failure.Some? ==> r.cause == failure.value
    ensures r.Broke? && BlamesAnswer(r.cause) ==> OwnFault(consumer.codec, l, consumer.scope, consumer.dataset, consumer.job,
      r.cause, consumer.calls, answers, consumer.session.remote.log)
    ensures r.Broke? && failure.None? ==>
              || r.cause.OutputLimitExceeded? || r.cause.WriteFailed? || r.cause.CloseFailed?
              || (r.cause.ChecksumMismatch? && consumer.codec.fold(consumer.codec.digest(content)) != consumer.codec.fold(checksum))
  {
    consumer.Look();
    var c, report := consumer.codec, consumer.role.report;
    answers := if failure.Some? then consumer.tried else consumer.answers;
    ghost var body := report.all;
    report.Flush();
    var closes: bool := *;
    var err := failure;
    if err.None? && report.err.Some? { err := Some(if report.err.value.OutputLimit? then OutputLimitExceeded else WriteFailed); }
    if err.None? && !closes { err := Some(CloseFailed); }
    if err.None? && c.fold(result.checksum) != c.fold(checksum) { err := Some(ChecksumMismatch); }
    if err.Some? { return Broke(ValidationErrorCode(err.value), err.value), answers; }
    var normalized := consumer.role.normalized.content;
    ReadBack(c, Normalized(answers));
    var counts := Counts(result.rows, consumer.valid, consumer.invalid);
    r := Done(Checked(Report(counts, JsonRows(c, normalized).rows), normalized, report.out.content));
  }

  /** What an error of a phase says about its file: a limit or the checksum is blamed on a file only
      if it breaks it. */
  ghost predicate Just(c: Codec, format: Format, content: Bytes, checksum: Text, l: Limits, broken: bool, e: Error) {
    && (e.ByteLimitExceeded? ==> |content| > l.maxBytes)
    && (e.ChecksumMismatch? ==> c.fold(c.digest(content)) != c.fold(checksum))
    && (e.BadLimits? ==> !Positive(l))
    && (|content| <= l.maxBytes && !broken ==>
          && (e.UnsupportedFormat? ==> format.Unknown?)
          && (e.TokenTooLong? ==> format.Jsonl? && !Short(Split(content)))
          && (e.RowLimitExceeded? ==> |RowsOf(c, format, content).rows| > l.maxRows)
          && (e.InvalidHeader? ==> !Readable(c, format, content))
          && (e.Malformed? ==> !RowsOf(c, format, content).ok))
  }

  /** What an error of the row stream says. */
  lemma RefusedIsJust(c: Codec, format: Format, content: Bytes, checksum: Text, l: Limits, broken: bool,
                      calls: seq<ParsedBatch>, e: Error)
    requires Positive(l) && !e.BadLimits? && !e.ChecksumMismatch? && (e.ByteLimitExceeded? ==> |content| > l.maxBytes)
    requires |content| <= l.maxBytes && !broken ==> Refused(c, format, content, l.batchSize, l.maxRows, l.maxBytes, calls, e)
    ensures Just(c, format, content, checksum, l, broken, e)
  {
  }

  /** Stream a source through a validating consumer, and conclude. */
  method Judge(consumer: Consumer, source: Source, format: Format, checksum: Text, l: Limits)
    returns (r: Outcome<Checked>, ghost answers: seq<Answer>, ghost calls: seq<ParsedBatch>)
    requires Lawful(consumer.codec) && source.Valid() && source.pos == 0 && !source.broken && source !in consumer.Repr
    requires consumer.Valid() && !consumer.failed && consumer.calls == [] && consumer.role.Validating?
    requires consumer.role.normalized.limit == consumer.role.report.out.limit == l.maxBytes
    modifies consumer.Repr, source
    ensures consumer.session.Valid()
    ensures r.Done? ==>
              && CheckedFile(consumer.codec, format, source.content, checksum, l, answers, r.value)
              && Recorded(consumer.scope, consumer.dataset, consumer.job,
                          Batches(RowsOf(consumer.codec, format, source.content).rows, l.batchSize), answers,
                          consumer.session.remote.log)
    ensures r.Broke? ==> Just(consumer.codec, format, source.content, checksum, l, source.broken, r.cause)
    ensures r.Broke? && BlamesAnswer(r.cause) ==>
              && OwnFault(consumer.codec, l, consumer.scope, consumer.dataset, consumer.job, r.cause, calls, answers,
                          consumer.session.remote.log)
              && Positive(l)
              && (!source.broken ==>
                    calls <= Batches(RowsWithin(consumer.codec, format, source.content, l.maxBytes).rows, l.batchSize))
  {
    var result, err := StreamRows(consumer.codec, source, format, l.batchSize, l.maxRows, l.maxBytes, consumer);
    consumer.Look();
    calls := consumer.calls;
    if err == Some(BadLimits) { return Broke(ValidationErrorCode(BadLimits), BadLimits), [], calls; }
    ghost var c, content, broken := consumer.codec, source.content, source.broken;
    if err.Some? { RefusedIsJust(c, format, content, checksum, l, broken, calls, err.value); }
    r, answers := Conclude(consumer, format, source.content, checksum, l, result, err);
    assert source.broken == broken && consumer.calls == calls;
  }

  /** Open the outputs and the provider session. */
  method Prepare(c: Codec, l: Limits, session: Session, scope: Scope, dataset: Text, job: Id)
    returns (r: Outcome<Consumer>)
    requires session.Valid() && !session.stream && session.remote.log == []
    modifies session
    ensures session.Valid()
    ensures r.Done? ==>
              && r.value.Valid() && !r.value.failed && r.value.calls == [] && r.value.role.Validating?
              && r.value.role.normalized.limit == r.value.role.report.out.limit == l.maxBytes && r.value.codec == c
              && r.value.session == session && r.value.scope == scope && r.value.dataset == dataset && r.value.job == job
              && fresh(r.value.Repr - {session, session.remote, session.remote.world})
    ensures r.Broke? ==> r.cause.WriteFailed? || r.cause.ProviderFailed?
  {
    var normalized := new BoundedWriter(l.maxBytes);
    var errors := new BoundedWriter(l.maxBytes);
    var report := new ReportWriter(errors);
    report.Write(c.header);
    if report.err.Some? { return Broke(Text("temporary_storage_unavailable"), WriteFailed); }
    var failure := session.Open();
    if failure.Some? { return Broke(Text("provider_unavailable"), ProviderFailed); }
    var consumer := new Consumer(Role.Validating(normalized, report), c, session, scope, dataset, job);
    r := Done(consumer);
  }

  /** Ask the provider about every row of a source, and collect the outputs. */
  method JudgeFile(c: Codec, source: Source, format: Format, checksum: Text, l: Limits,
                   session: Session, scope: Scope, dataset: Text, job: Id)
    returns (r: Outcome<Checked>, ghost answers: seq<Answer>, ghost calls: seq<ParsedBatch>)
    requires Lawful(c) && source.Valid() && source.pos == 0 && !source.broken
    requires session.Valid() && !session.stream && session.remote.log == []
    modifies source, session, session.remote, session.remote.world
    ensures session.Valid()
    ensures r.Done? ==>
              && CheckedFile(c, format, source.content, checksum, l, answers, r.value)
              && Recorded(scope, dataset, job, Batches(RowsOf(c, format, source.content).rows, l.batchSize), answers,
                          session.remote.log)
    ensures r.Broke? ==> Just(c, format, source.content, checksum, l, source.broken, r.cause)
    ensures r.Broke? && BlamesAnswer(r.cause) ==>
              && OwnFault(c, l, scope, dataset, job, r.cause, calls, answers, session.remote.log)
              && Positive(l)
              && (!source.broken ==> calls <= Batches(RowsWithin(c, format, source.content, l.maxBytes).rows, l.batchSize))
  {
    var consumer := Prepare(c, l, session, scope, dataset, job);
    if consumer.Broke? { return Broke(consumer.code, consumer.cause), [], []; }
    assert source !in consumer.value.Repr;
    r, answers, calls := Judge(consumer.value, source, format, checksum, l);
  }

  // ---- applying ----

  /** Apply the rows of a normalized file, batch by batch. Whatever others do meanwhile, the claim sends the
      batches of the file in order, and a finished apply has sent all of them and got all the answers. */
  method ApplyFile(c: Codec, source: Source, l: Limits, session: Session, scope: Scope, dataset: Text, job: Id)
    returns (r: Outcome<int>, ghost calls: seq<ParsedBatch>)
    requires source.Valid() && source.pos == 0 && !source.broken
    requires session.Valid() && !session.stream && session.remote.log == []
    requires var k := session.remote.mine;
      && session.remote.Claimed() == k && k.id == job && k.open && k.kind == Kind.Apply && k.input.Some?
      && k.calls == [] && k.answered == 0
    modifies source, session, session.remote, session.remote.world
    ensures session.Valid() && Sequential(calls)
    ensures var k := session.remote.Claimed();
      || k.calls == Messages(scope, dataset, job, calls)
      || (r.Broke? && calls != [] && k.calls == Messages(scope, dataset, job, calls[..|calls| - 1]))
    ensures l.batchSize >= 1 && |source.content| <= l.maxBytes && !source.broken ==>
              calls <= Batches(JsonRows(c, source.content).rows, l.batchSize)
    ensures r.Done? ==>
              && l.batchSize >= 1 && JsonRows(c, source.content).ok && r.value == |JsonRows(c, source.content).rows|
              && calls == Batches(JsonRows(c, source.content).rows, l.batchSize)
              && session.remote.Claimed().answered == |calls|
    ensures r.Broke? && |source.content| <= l.maxBytes && !source.broken && Positive(l) && !r.cause.ProviderFailed? ==>
              Refused(c, Jsonl, source.content, l.batchSize, l.maxRows, l.maxBytes, calls, r.cause)
  {
    calls := [];
    assert Messages(scope, dataset, job, calls) == [];
    var failure := session.Open();
    if failure.Some? { return Broke(Text("provider_unavailable"), ProviderFailed), calls; }
    var consumer := new Consumer(Role.Applying, c, session, scope, dataset, job);
    var result, err := StreamRows(c, source, Jsonl, l.batchSize, l.maxRows, l.maxBytes, consumer);
    calls := consumer.calls;
    consumer.Look();
    if err.Some? {
      var late: bool := *;
      return Broke(if late && err.value.ContextDone? then Text("timeout") else Text("apply_failed"), err.value), calls;
    }
    BatchesPartition(JsonRows(c, source.content).rows, l.batchSize);
    r := Done(consumer.applied);
  }
}
