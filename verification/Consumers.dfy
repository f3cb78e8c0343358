/** What a worker does with each batch of rows: validate and write, or apply. */
module Consumers {
  import opened Rows
  import opened Jobs
  import opened Lines
  import opened Batching
  import opened Providers
  import opened Protocol
  import opened Sessions
  import opened Files
  import opened Outputs
  import opened Deliveries
  import opened Tallies
  import opened Hiding

  datatype Error =
    | RowLimitExceeded | ByteLimitExceeded | OutputLimitExceeded | InvalidHeader | InvalidProviderResponse
    | ProviderFailed | WriteFailed | NotEncodable | ContextDone
    | BadLimits | UnsupportedFormat | Malformed | ReadFailed | TokenTooLong
    | CloseFailed | ChecksumMismatch

  /** The errors a callback of the row stream may return. */
  predicate FromConsumer(e: Error) {
    e.ProviderFailed? || e.InvalidProviderResponse? || e.OutputLimitExceeded? || e.WriteFailed? || e.NotEncodable?
  }

  /** What was to be written passes one of the limits. */
  ghost predicate TooLong(c: Codec, answers: seq<Answer>, normalizedMax: int, reportMax: int) {
    || |ReportBody(c, Issues(answers))| > reportMax
    || exists n :: FirstTooLong(c, Normalized(answers), n, normalizedMax)
  }

  ghost predicate FirstTooLong(c: Codec, rows: seq<Row>, n: int, max: int) {
    0 <= n <= |rows| && Encodable(c, rows[..n]) && |Encoded(c, rows[..n])| > max
  }

  /** What an error that is blamed on an answer says about the answers up to this one. */
  ghost predicate Justified(c: Codec, e: Error, calls: seq<ParsedBatch>, answers: seq<Answer>, normalizedMax: int, reportMax: int) {
    && (e.OutputLimitExceeded? ==> TooLong(c, answers, normalizedMax, reportMax))
    && (e.NotEncodable? ==> !Encodable(c, Normalized(answers)))
    && (e.InvalidProviderResponse? ==>
          |calls| == |answers| > 0 && !Acceptable(c, calls[|calls| - 1], answers[|answers| - 1]))
  }

  predicate BlamesAnswer(e: Error) { e.OutputLimitExceeded? || e.NotEncodable? || e.InvalidProviderResponse? }

  datatype Role =
    | Validating(normalized: BoundedWriter, report: ReportWriter)
    | Applying

  class Consumer {
    const role: Role
    const codec: Codec
    const session: Session
    const scope: Scope
    const dataset: Text
    const job: Id
    var valid: int
    var invalid: int
    var applied: int
    var failed: bool
    ghost var calls: seq<ParsedBatch>    // every batch handed over
    ghost var answers: seq<Answer>       // the answers accepted, when validating
    ghost var fault: Option<Error>       // the error of the last batch
    ghost var tried: seq<Answer>         // the answers accepted and the one that was not

    ghost const Repr: set<object>

    /** The objects the consumer works on. */
    ghost predicate Footprint()
      reads this
    {
      Repr == {this, session, session.remote, session.remote.world} +
              if role.Validating? then {role.normalized, role.report, role.report.out} else {}
    }

    /** The invariant, unfolded only where `Look` asks for it. */
    ghost predicate Valid()
      reads this, Repr
    {
      forall k {:trigger Asked(k)} :: Asked(k) ==> Sound()
    }

    lemma Look()
      requires Valid()
      ensures Sound()
    {
      assert Asked(0);
    }

    ghost predicate Sound()
      reads this, Repr
    {
      && Footprint() && session.Valid() && (failed <==> fault.Some?)
      && (role.Validating? ==>
            && role.normalized != role.report.out && role.normalized.Valid() && role.report.Valid()
            && (if failed then Excused(fault.value) else Tallied()))
      && (role.Applying? ==> Committed())
    }

    /** The answers accepted are the provider's, and counters, normalized file and report agree with them. */
    ghost predicate Tallied()
      reads this, Repr
      requires Footprint() && role.Validating?
    {
      && |answers| == |calls| && Recorded(scope, dataset, job, calls, answers, session.remote.log)
      && (forall i :: 0 <= i < |calls| ==> Acceptable(codec, calls[i], answers[i]))
      && Written()
    }

    /** An error that is blamed on an answer is the fault of the provider's last one. */
    ghost predicate Excused(e: Error)
      reads this, Repr
      requires Footprint() && role.Validating?
    {
      BlamesAnswer(e) ==>
        && Recorded(scope, dataset, job, calls, tried, session.remote.log)
        && Justified(codec, e, calls, tried, role.normalized.limit, role.report.out.limit)
    }

    ghost predicate Written()
      requires role.Validating?
      reads this, role.normalized, role.report, role.report.out
    {
      && valid == |Normalized(answers)| && invalid == InvalidCount(answers)
      && Encodable(codec, Normalized(answers))
      && role.normalized.content == Encoded(codec, Normalized(answers))
      && role.report.all == ReportBody(codec, Issues(answers))
      && role.report.err.None?
    }

    /** The claim may apply batches of this job. */
    ghost predicate Entitled() {
      var k := session.remote.mine;
      k.id == job && k.open && k.kind == Kind.Apply && k.input.Some? && k.calls == [] && k.answered == 0
    }

    /** The claim has sent the batches handed over, one after the other, and they have been answered;
        after a failure the last one may be open, or may not have been sent at all. */
    ghost predicate Committed()
      reads this, session.remote, session.remote.world
      requires session.remote.Valid()
    {
      var k := session.remote.Claimed();
      && Sequential(calls) && Entitled()
      && (k.calls == Messages(scope, dataset, job, calls)
          || (failed && calls != [] && k.calls == Messages(scope, dataset, job, calls[..|calls| - 1])))
      && (!failed ==> k.answered == |k.calls| && applied == |Flatten(calls)|)
    }

    constructor (role: Role, codec: Codec, session: Session, scope: Scope, dataset: Text, job: Id)
      requires session.Valid() && session.remote.log == []
      requires role.Applying? ==>
                 var k := session.remote.mine;
                 && session.remote.Claimed() == k && k.id == job && k.open && k.kind == Kind.Apply && k.input.Some?
                 && k.calls == [] && k.answered == 0
      requires role.Validating? ==>
                 && role.normalized != role.report.out && role.normalized.Valid() && role.report.Valid()
                 && role.normalized.content == [] && role.report.all == codec.header && role.report.err.None?
      ensures Valid() && !failed && calls == [] && answers == [] && this.role == role
      ensures this.codec == codec && this.session == session
      ensures this.scope == scope && this.dataset == dataset && this.job == job && Footprint()
    {
      this.role, this.codec, this.session := role, codec, session;
      Repr := {this, session, session.remote, session.remote.world} +
              if role.Validating? then {role.normalized, role.report, role.report.out} else {};
      this.scope, this.dataset, this.job := scope, dataset, job;
      valid, invalid, applied, failed, calls, answers, fault, tried := 0, 0, 0, false, [], [], None, [];
      assert Messages(scope, dataset, job, []) == [];
    }

    /** Write one normalized row as a line. */
    method WriteRow(row: Row, ghost done: seq<Row>) returns (err: Option<Error>)
      requires role.Validating? && role.normalized.Valid()
      requires Encodable(codec, done) && role.normalized.content == Encoded(codec, done)
      modifies role.normalized
      ensures role.normalized.Valid()
      ensures err.Some? ==> FromConsumer(err.value) && !err.value.InvalidProviderResponse?
      ensures err == Some(NotEncodable) ==> codec.encode(row).None?
      ensures err == Some(OutputLimitExceeded) ==>
                Encodable(codec, done + [row]) && |Encoded(codec, done + [row])| > role.normalized.limit
      ensures err.None? ==> Encodable(codec, done + [row]) && role.normalized.content == Encoded(codec, done + [row])
    {
      var encoded := codec.encode(row);
      if encoded.None? { return Some(NotEncodable); }
      var line := encoded.value + [NEWLINE];
      EncodedSnoc(codec, done, row);
      var n, failure := role.normalized.Write(line);
      if failure.Some? { return Some(if failure.value.OutputLimit? then OutputLimitExceeded else WriteFailed); }
      assert line[..n] == line;
      err := None;
    }

    /** Write the normalized rows of an answer, one line each. */
    method WriteRows(rows: seq<Row>, ghost before: seq<Row>) returns (err: Option<Error>)
      requires role.Validating? && role.normalized.Valid()
      requires Encodable(codec, before) && role.normalized.content == Encoded(codec, before)
      modifies role.normalized
      ensures role.normalized.Valid()
      ensures err.Some? ==> FromConsumer(err.value) && !err.value.InvalidProviderResponse?
      ensures err == Some(NotEncodable) ==> !Encodable(codec, before + rows)
      ensures err == Some(OutputLimitExceeded) ==> exists n :: FirstTooLong(codec, before + rows, n, role.normalized.limit)
      ensures err.None? ==> Encodable(codec, before + rows) && role.normalized.content == Encoded(codec, before + rows)
    {
      var i := 0;
      ghost var done, all := before, before + rows;
      while i < |rows|
        invariant 0 <= i <= |rows| && role.normalized.Valid() && done == before + rows[..i]
        invariant Encodable(codec, done) && role.normalized.content == Encoded(codec, done)
      {
        err := WriteRow(rows[i], done);
        if err.Some? {
          RowsUpTo(before, rows, i);
          assert err == Some(OutputLimitExceeded) ==> FirstTooLong(codec, all, |before| + i + 1, role.normalized.limit);
          return;
        }
        done, i := done + [rows[i]], i + 1;
      }
      assert done == before + rows;
      err := None;
    }

    /** Check one issue against its batch and write it to the report. */
    method WriteIssue(b: ParsedBatch, issue: Issue) returns (err: Option<Error>)
      requires role.Validating? && role.report.Valid() && role.report.err.None?
      modifies role.report, role.report.out
      ensures role.report.Valid() && (err.Some? ==> FromConsumer(err.value) && !err.value.NotEncodable?)
      ensures err == Some(InvalidProviderResponse) ==> !ValidIssue(codec, b, issue)
      ensures err == Some(OutputLimitExceeded) ==> |old(role.report.all) + codec.report(issue)| > role.report.out.limit
      ensures err.None? ==>
                && role.report.err.None? && role.report.all == old(role.report.all) + codec.report(issue)
                && ValidIssue(codec, b, issue)
    {
      if issue.row < b.first || issue.row > b.first + |b.rows| - 1 || codec.trim(issue.code.chars) == "" {
        return Some(InvalidProviderResponse);
      }
      role.report.Write(codec.report(issue));
      if role.report.err.Some? {
        return Some(if role.report.err.value.OutputLimit? then OutputLimitExceeded else WriteFailed);
      }
      err := None;
    }

    /** Check the issues of an answer against its batch and write them to the report. */
    method WriteIssues(b: ParsedBatch, issues: seq<Issue>, ghost before: seq<Issue>)
      returns (err: Option<Error>, rows: set<int>)
      requires role.Validating? && role.report.Valid() && role.report.err.None?
      requires role.report.all == ReportBody(codec, before)
      modifies role.report, role.report.out
      ensures role.report.Valid() && (err.Some? ==> FromConsumer(err.value) && !err.value.NotEncodable?)
      ensures err == Some(InvalidProviderResponse) ==> exists k :: 0 <= k < |issues| && !ValidIssue(codec, b, issues[k])
      ensures err == Some(OutputLimitExceeded) ==> |ReportBody(codec, before + issues)| > role.report.out.limit
      ensures err.None? ==>
                && role.report.err.None? && role.report.all == ReportBody(codec, before + issues)
                && rows == RowsWithIssues(issues)
                && (forall k :: 0 <= k < |issues| ==> ValidIssue(codec, b, issues[k]))
    {
      var i := 0;
      rows := {};
      ghost var done: seq<Issue>, body := [], before;
      assert before + done == before;
      while i < |issues|
        invariant 0 <= i <= |issues| && done == issues[..i] && body == before + done
        invariant role.report.Valid() && role.report.err.None? && role.report.all == ReportBody(codec, body)
        invariant rows == RowsWithIssues(done)
        invariant forall k :: 0 <= k < i ==> ValidIssue(codec, b, issues[k])
      {
        err := WriteIssue(b, issues[i]);
        if err.Some? {
          ReportPrefix(codec, before, issues, i);
          return;
        }
        rows := rows + {issues[i].row};
        ReportSnoc(codec, body, issues[i]);
        RowsSnoc(done, issues[i]);
        done, body, i := done + [issues[i]], body + [issues[i]], i + 1;
      }
      assert done == issues;
      err := None;
    }

    /** Check an answer, write the report and the normalized rows, and only then count. */
    method Record(b: ParsedBatch, answer: Answer) returns (err: Option<Error>)
      requires role.Validating? && role.normalized.Valid() && role.report.Valid() && role.normalized != role.report.out
      requires Written()
      modifies this`valid, this`invalid, this`answers, role.normalized, role.report, role.report.out
      ensures role.normalized.Valid() && role.report.Valid()
      ensures err.Some? ==> FromConsumer(err.value)
      ensures err == Some(InvalidProviderResponse) ==> !Acceptable(codec, b, answer)
      ensures err == Some(NotEncodable) ==> !Encodable(codec, Normalized(old(answers) + [answer]))
      ensures err == Some(OutputLimitExceeded) ==>
                TooLong(codec, old(answers) + [answer], role.normalized.limit, role.report.out.limit)
      ensures err.None? ==> Written() && Acceptable(codec, b, answer) && answers == old(answers) + [answer]
      ensures err.None? ==> old(valid) <= valid && old(invalid) <= invalid && valid + invalid == old(valid + invalid) + |b.rows|
    {
      var rows;
      ghost var before := answers;
      AnswersSnoc(before, answer);
      err, rows := WriteIssues(b, answer.issues, Issues(before));
      if err.Some? { return; }
      IssueRowsFit(codec, b, answer.issues);
      if |answer.normalized| != |b.rows| - |rows| { return Some(InvalidProviderResponse); }
      err := WriteRows(answer.normalized, Normalized(before));
      if err.Some? { return; }
      valid := valid + (|b.rows| - |rows|);
      invalid := invalid + |rows|;
      answers := before + [answer];
    }

    /** Validate one batch: ask the provider, and record its answer. Success means that the answer
        accepted is the provider's response to this batch. */
    method Validate(b: ParsedBatch) returns (err: Option<Error>, ghost answer: Answer)
      requires Valid() && !failed && role.Validating?
      modifies this`valid, this`invalid, this`answers, session, session.remote, session.remote.world,
               role.normalized, role.report, role.report.out
      ensures session.Valid() && role.normalized.Valid() && role.report.Valid()
      ensures err.Some? ==> FromConsumer(err.value)
      ensures err.None? || BlamesAnswer(err.value) ==>
                && |session.remote.log| == |old(session.remote.log)| + 1
                && session.remote.log[..|old(session.remote.log)|] == old(session.remote.log)
                && session.remote.log[|old(session.remote.log)|].message == ValidateMessage(scope, dataset, job, b)
                && answer == AnswerOf(session.remote.log[|old(session.remote.log)|].response)
      ensures err == Some(InvalidProviderResponse) ==> !Acceptable(codec, b, answer)
      ensures err == Some(NotEncodable) ==> !Encodable(codec, Normalized(old(answers) + [answer]))
      ensures err == Some(OutputLimitExceeded) ==>
                TooLong(codec, old(answers) + [answer], role.normalized.limit, role.report.out.limit)
      ensures err.None? ==> Written() && Acceptable(codec, b, answer) && answers == old(answers) + [answer]
      ensures err.None? ==> old(valid) <= valid && old(invalid) <= invalid && valid + invalid == old(valid + invalid) + |b.rows|
    {
      Look();
      var response, ok, _ := session.ValidateBatch(ValidateMessage(scope, dataset, job, b));
      answer := AnswerOf(response);
      if !ok { return Some(ProviderFailed), answer; }
      err := Record(b, AnswerOf(response));
    }

    /** Apply one batch: the answer must report every row applied and no issue. */
    method Apply(b: ParsedBatch) returns (err: Option<Error>)
      requires Sound() && !failed && role.Applying? && b.number == |calls| + 1
      modifies this`applied, session, session.remote, session.remote.world
      ensures session.Valid() && (err.Some? ==> FromConsumer(err.value))
      ensures applied == old(applied) + (if err.None? then |b.rows| else 0)
      ensures var k, m := session.remote.Claimed(), ApplyMessage(scope, dataset, job, b);
        && (k.calls == old(session.remote.Claimed().calls) || k.calls == old(session.remote.Claimed().calls) + [m])
        && (err.None? ==>
              && k.calls == old(session.remote.Claimed().calls) + [m] && k.answered == |k.calls|
              && m in session.remote.world.arrived)
    {
      var m := ApplyMessage(scope, dataset, job, b);
      var response, ok, _ := session.ApplyBatch(m);
      if !ok { return Some(ProviderFailed); }
      if response.issues != [] || response.applied != |b.rows| { return Some(InvalidProviderResponse); }
      applied := applied + response.applied;
      err := None;
    }

    method ConsumeValidating(b: ParsedBatch) returns (err: Option<Error>)
      requires Valid() && !failed && role.Validating?
      modifies Repr
      ensures Valid() && calls == old(calls) + [b] && (failed <==> err.Some?) && fault == err
      ensures err.Some? ==> FromConsumer(err.value)
    {
      Look();
      ghost var before, accepted, log, answer := calls, answers, session.remote.log, Answer([], []);
      err, answer := Validate(b);
      failed, fault, tried := err.Some?, err, accepted + [answer];
      calls := before + [b];
      Consumed(before, accepted, log, b, answer);
    }

    /** The batch has been judged, and the outcome noted. */
    lemma Consumed(before: seq<ParsedBatch>, accepted: seq<Answer>, log: seq<Exchanged>, b: ParsedBatch, answer: Answer)
      requires Footprint() && session.Valid() && (failed <==> fault.Some?)
      requires role.Validating? && role.normalized != role.report.out && role.normalized.Valid() && role.report.Valid()
      requires calls == before + [b] && tried == accepted + [answer] && Recorded(scope, dataset, job, before, accepted, log)
      requires fault.None? || BlamesAnswer(fault.value) ==>
                 && |session.remote.log| == |log| + 1 && session.remote.log[..|log|] == log
                 && session.remote.log[|log|].message == ValidateMessage(scope, dataset, job, b)
                 && answer == AnswerOf(session.remote.log[|log|].response)
      requires fault == Some(InvalidProviderResponse) ==> !Acceptable(codec, b, answer)
      requires fault == Some(NotEncodable) ==> !Encodable(codec, Normalized(tried))
      requires fault == Some(OutputLimitExceeded) ==> TooLong(codec, tried, role.normalized.limit, role.report.out.limit)
      requires !failed ==>
                 && Written() && answers == tried && Acceptable(codec, b, answer)
                 && forall i :: 0 <= i < |before| ==> Acceptable(codec, before[i], accepted[i])
      ensures Valid()
    {
      if !failed || BlamesAnswer(fault.value) {
        OneMoreRecorded(scope, dataset, job, before, accepted, log, b, answer, session.remote.log);
      }
      if failed {
        assert tried[|tried| - 1] == answer && calls[|calls| - 1] == b;
      } else {
        OneMoreAccepted(codec, before, accepted, b, answer);
      }
    }

    method ConsumeApplying(b: ParsedBatch) returns (err: Option<Error>)
      requires Valid() && !failed && role.Applying? && b.number == |calls| + 1
      modifies Repr
      ensures Valid() && calls == old(calls) + [b] && (failed <==> err.Some?) && fault == err
      ensures err.Some? ==> FromConsumer(err.value)
    {
      Look();
      ghost var before := calls;
      err := Apply(b);
      failed, fault, calls := err.Some?, err, before + [b];
      FlattenSnoc(before, b);
      MessagesSnoc(scope, dataset, job, before, b);
      assert calls[..|before|] == before && calls[|before|] == b;
    }

    /** The callback of the row stream. */
    method Consume(b: ParsedBatch) returns (err: Option<Error>)
      requires Valid() && !failed && b.number == |calls| + 1
      modifies Repr
      ensures Valid() && calls == old(calls) + [b] && (failed <==> err.Some?) && fault == err
      ensures err.Some? ==> FromConsumer(err.value)
    {
      Look();
      if role.Validating? { err := ConsumeValidating(b); } else { err := ConsumeApplying(b); }
    }
  }

  /** One more answer. */
  lemma OneMoreRecorded(scope: Scope, dataset: Text, job: Id, calls: seq<ParsedBatch>, answers: seq<Answer>,
                        log: seq<Exchanged>, b: ParsedBatch, answer: Answer, log': seq<Exchanged>)
    requires Recorded(scope, dataset, job, calls, answers, log) && |log'| == |log| + 1 && log'[..|log|] == log
    requires log'[|log|].message == ValidateMessage(scope, dataset, job, b) && answer == AnswerOf(log'[|log|].response)
    ensures Recorded(scope, dataset, job, calls + [b], answers + [answer], log')
  {
    forall i | 0 <= i < |log| ensures log'[i] == log[i] { assert log'[i] == log'[..|log|][i]; }
  }

  lemma RowsUpTo(before: seq<Row>, rows: seq<Row>, i: nat)
    requires i < |rows|
    ensures (before + rows)[..|before| + i + 1] == before + rows[..i] + [rows[i]] && (before + rows)[|before| + i] == rows[i]
  {
  }

  lemma OneMoreAccepted(c: Codec, calls: seq<ParsedBatch>, answers: seq<Answer>, b: ParsedBatch, answer: Answer)
    requires |calls| == |answers| && Acceptable(c, b, answer)
    requires forall i :: 0 <= i < |calls| ==> Acceptable(c, calls[i], answers[i])
    ensures forall i :: 0 <= i < |calls + [b]| ==> Acceptable(c, (calls + [b])[i], (answers + [answer])[i])
  {
  }

  /** More issues make a longer report. */
  lemma {:induction false} ReportGrows(c: Codec, issues: seq<Issue>, more: seq<Issue>)
    ensures |ReportBody(c, issues)| <= |ReportBody(c, issues + more)|
  {
    if more == [] {
      assert issues + more == issues;
    } else {
      ReportGrows(c, issues, more[..|more| - 1]);
      assert issues + more == (issues + more[..|more| - 1]) + [more[|more| - 1]];
      ReportSnoc(c, issues + more[..|more| - 1], more[|more| - 1]);
    }
  }

  lemma ReportPrefix(c: Codec, before: seq<Issue>, issues: seq<Issue>, i: nat)
    requires i < |issues|
    ensures |ReportBody(c, before + issues[..i]) + c.report(issues[i])| <= |ReportBody(c, before + issues)|
  {
    var first := before + issues[..i];
    ReportSnoc(c, first, issues[i]);
    assert before + issues == (first + [issues[i]]) + issues[i + 1..];
    ReportGrows(c, first + [issues[i]], issues[i + 1..]);
  }

  /** The error report: its header and one record for each issue. */
  function ReportBody(c: Codec, issues: seq<Issue>): Bytes {
    if issues == [] then c.header
    else ReportBody(c, issues[..|issues| - 1]) + c.report(issues[|issues| - 1])
  }

  lemma ReportSnoc(c: Codec, issues: seq<Issue>, issue: Issue)
    ensures ReportBody(c, issues + [issue]) == ReportBody(c, issues) + c.report(issue)
  {
    assert (issues + [issue])[..|issues|] == issues;
  }
}
