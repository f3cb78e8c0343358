/** Whether a validation succeeds does not depend on its batch size, either, when the provider judges row
    by row and nothing around it fails. */
module SameOutcome {
  import opened Rows
  import opened Jobs
  import opened Lines
  import opened Readers
  import opened Batching
  import opened Providers
  import opened Files
  import opened Tallies
  import opened Consumers
  import opened Parser
  import opened Pipelines

  /** Errors that come from around the validation: the provider's connection, the context or storage. */
  predicate FromAround(e: Error) {
    e.ProviderFailed? || e.WriteFailed? || e.CloseFailed? || e.ContextDone? || e.ReadFailed?
  }

  /** The first batches of a file are the batches of its first rows. */
  lemma {:induction false} FirstBatches(rows: seq<Row>, size: nat, calls: seq<ParsedBatch>) returns (m: nat)
    requires size > 0 && calls <= Batches(rows, size)
    ensures m <= |rows| && calls == Batches(rows[..m], size)
    decreases |rows|
  {
    if calls == Batches(rows, size) {
      m := |rows|;
      assert rows[..m] == rows;
    } else {
      var k := LastIndex(|rows|, size);
      var init := rows[..k * size];
      m := FirstBatches(init, size, calls);
      assert init[..m] == rows[..m];
    }
  }

  /** The answers to the first batches are the first part of the answer to the file. */
  lemma FirstAnswers(judge: (int, Row) -> Verdict, rows: seq<Row>, size: nat, calls: seq<ParsedBatch>, answers: seq<Answer>)
    requires size > 0 && calls <= Batches(rows, size) && AnswersByRow(judge, calls, answers)
    ensures Issues(answers) <= Judged(judge, 2, rows).issues
    ensures Normalized(answers) <= Judged(judge, 2, rows).normalized
  {
    var m := FirstBatches(rows, size, calls);
    BatchesDoNotMatter(judge, rows[..m], size, answers);
    JudgedConcat(judge, 2, rows[..m], rows[m..]);
    assert rows[..m] + rows[m..] == rows;
  }

  lemma {:induction false} EncodedGrows(c: Codec, rows: seq<Row>, n: nat)
    requires Encodable(c, rows) && n <= |rows|
    ensures Encodable(c, rows[..n]) && |Encoded(c, rows[..n])| <= |Encoded(c, rows)|
  {
    if n == |rows| {
      assert rows[..n] == rows;
    } else {
      EncodedGrows(c, rows[..|rows| - 1], n);
      assert rows[..|rows| - 1][..n] == rows[..n];
    }
  }

  predicate Coded(c: Codec, issues: seq<Issue>) {
    forall i :: 0 <= i < |issues| ==> c.trim(issues[i].code.chars) != ""
  }

  /** Issues of accepted answers carry codes. */
  lemma {:induction false} AcceptedAreCoded(c: Codec, calls: seq<ParsedBatch>, answers: seq<Answer>)
    requires |calls| == |answers| && forall i :: 0 <= i < |calls| ==> Acceptable(c, calls[i], answers[i])
    ensures Coded(c, Issues(answers))
  {
    if answers != [] {
      var n := |answers| - 1;
      AcceptedAreCoded(c, calls[..n], answers[..n]);
      assert Acceptable(c, calls[n], answers[n]);
      forall i | 0 <= i < |answers[n].issues| ensures c.trim(answers[n].issues[i].code.chars) != "" {
        assert ValidIssue(c, calls[n], answers[n].issues[i]);
      }
    }
  }

  /** An answer that judges row by row is accepted if its issues carry codes. */
  lemma JudgedIsAcceptable(c: Codec, judge: (int, Row) -> Verdict, b: ParsedBatch, answer: Answer)
    requires RowWise(judge) && answer == Judged(judge, b.first, b.rows) && Coded(c, answer.issues)
    ensures Acceptable(c, b, answer)
  {
    JudgedCounts(judge, b.first, b.rows);
    forall i | 0 <= i < |answer.issues| ensures ValidIssue(c, b, answer.issues[i]) {
      RowsNamed(answer.issues, answer.issues[i].row);
      assert answer.issues[i].row in RowsWithIssues(answer.issues);
    }
  }

  /** The last answer is part of what all answers add up to. */
  lemma LastIsCoded(c: Codec, answers: seq<Answer>, all: seq<Issue>)
    requires answers != [] && Issues(answers) <= all && Coded(c, all)
    ensures Coded(c, answers[|answers| - 1].issues)
  {
    var init, last := Issues(answers[..|answers| - 1]), answers[|answers| - 1].issues;
    forall i | 0 <= i < |last| ensures c.trim(last[i].code.chars) != "" { assert all[|init| + i] == last[i]; }
  }

  /** If everything fits, so does every first part of it. */
  lemma NotTooLong(c: Codec, all: Answer, answers: seq<Answer>, max: int)
    requires Encodable(c, all.normalized) && |Encoded(c, all.normalized)| <= max && |ReportBody(c, all.issues)| <= max
    requires Issues(answers) <= all.issues && Normalized(answers) <= all.normalized
    ensures !TooLong(c, answers, max, max)
  {
    ReportGrows(c, Issues(answers), all.issues[|Issues(answers)|..]);
    assert Issues(answers) + all.issues[|Issues(answers)|..] == all.issues;
    forall n ensures !FirstTooLong(c, Normalized(answers), n, max) {
      if 0 <= n <= |Normalized(answers)| {
        assert Normalized(answers)[..n] == all.normalized[..n];
        EncodedGrows(c, all.normalized, n);
      }
    }
  }

  /** If every row of the whole can be encoded, so can those of a first part. */
  lemma FirstEncodable(c: Codec, all: seq<Row>, first: seq<Row>)
    requires Encodable(c, all) && first <= all
    ensures Encodable(c, first)
  {
    forall i | 0 <= i < |first| ensures c.encode(first[i]).Some? { assert first[i] == all[i]; }
  }

  /** If the issues of the whole carry codes, the last answer of a first part is accepted. */
  lemma {:induction false} LastIsAcceptable(c: Codec, judge: (int, Row) -> Verdict, all: seq<Issue>, calls: seq<ParsedBatch>, answers: seq<Answer>)
    requires RowWise(judge) && AnswersByRow(judge, calls, answers) && answers != [] && Issues(answers) <= all && Coded(c, all)
    ensures Acceptable(c, calls[|calls| - 1], answers[|answers| - 1])
  {
    LastIsCoded(c, answers, all);
    JudgedIsAcceptable(c, judge, calls[|calls| - 1], answers[|answers| - 1]);
  }

  /** A provider that judges row by row is not to blame in one validation and right in the other. */
  lemma NotToBlame(c: Codec, judge: (int, Row) -> Verdict, rows: seq<Row>, l: Limits, answers: seq<Answer>, v: Checked,
                   size: nat, calls: seq<ParsedBatch>, others: seq<Answer>, e: Error)
    requires RowWise(judge) && Judgement(c, rows, l, answers, v.report, v.errors)
    requires AnswersByRow(judge, Batches(rows, l.batchSize), answers)
    requires size > 0 && calls <= Batches(rows, size) && AnswersByRow(judge, calls, others) && BlamesAnswer(e)
    ensures !Justified(c, e, calls, others, l.maxBytes, l.maxBytes)
  {
    var all := Judged(judge, 2, rows);
    BatchesDoNotMatter(judge, rows, l.batchSize, answers);
    FirstAnswers(judge, rows, size, calls, others);
    if e.OutputLimitExceeded? {
      NotTooLong(c, all, others, l.maxBytes);
    } else if e.NotEncodable? {
      FirstEncodable(c, all.normalized, Normalized(others));
    } else if others != [] {
      AcceptedAreCoded(c, Batches(rows, l.batchSize), answers);
      LastIsAcceptable(c, judge, all.issues, calls, others);
    }
  }

  /** If a file is accepted with one batch size, then with any other batch size and the same limits it is
      refused only for something around the validation, or for a last line without end that may or may not
      fit the buffer. */
  lemma SucceedsTogether(c: Codec, judge: (int, Row) -> Verdict, format: Format, content: Bytes, checksum: Text,
                         scope: Scope, dataset: Text, job: Id,
                         l1: Limits, answers1: seq<Answer>, v1: Checked, log1: seq<Exchanged>,
                         l2: Limits, calls2: seq<ParsedBatch>, answers2: seq<Answer>, e2: Error, log2: seq<Exchanged>)
    requires RowWise(judge) && JudgedByRow(judge, log1) && JudgedByRow(judge, log2)
    requires CheckedFile(c, format, content, checksum, l1, answers1, v1)
    requires Recorded(scope, dataset, job, Batches(RowsOf(c, format, content).rows, l1.batchSize), answers1, log1)
    requires l2.maxRows == l1.maxRows && l2.maxBytes == l1.maxBytes && Positive(l2)
    requires Just(c, format, content, checksum, l2, false, e2)
    requires BlamesAnswer(e2) ==>
               && OwnFault(c, l2, scope, dataset, job, e2, calls2, answers2, log2)
               && calls2 <= Batches(RowsWithin(c, format, content, l2.maxBytes).rows, l2.batchSize)
    ensures FromAround(e2) || (e2.TokenTooLong? && format.Jsonl? && !Terminated(content) && !Short(Split(content)))
  {
    var rows := RowsOf(c, format, content).rows;
    RecordedByRow(judge, scope, dataset, job, Batches(rows, l1.batchSize), answers1, log1);
    if BlamesAnswer(e2) {
      RecordedByRow(judge, scope, dataset, job, calls2, answers2, log2);
      RowsWithinAreFirst(c, format, content, l2.maxBytes);
      NotToBlame(c, judge, rows, l1, answers1, v1, l2.batchSize, calls2, answers2, e2);
    }
  }
}
