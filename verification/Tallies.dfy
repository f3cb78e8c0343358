/** Counting a provider's answers: which batches are accepted, and what they add up to. */
module Tallies {
  import opened Rows
  import opened Jobs
  import opened Batching
  import opened Providers
  import opened Files

  datatype Answer = Answer(issues: seq<Issue>, normalized: seq<Row>)

  /** What the provider's response to a batch says about its rows. */
  function AnswerOf(r: Response): Answer { Answer(r.issues, r.normalized) }

  /** The request to validate a batch. */
  function ValidateMessage(scope: Scope, dataset: Text, job: Id, b: ParsedBatch): Message {
    ValidateRows(scope, dataset, job, b.number, b.first, b.rows)
  }

  /** The answers are the provider's responses to the batches, one by one. */
  ghost predicate Recorded(scope: Scope, dataset: Text, job: Id, calls: seq<ParsedBatch>, answers: seq<Answer>, log: seq<Exchanged>) {
    && |calls| == |answers| == |log|
    && forall i :: 0 <= i < |log| ==>
         log[i].message == ValidateMessage(scope, dataset, job, calls[i]) && answers[i] == AnswerOf(log[i].response)
  }

  function RowsWithIssues(issues: seq<Issue>): set<int> {
    if issues == [] then {}
    else RowsWithIssues(issues[..|issues| - 1]) + {issues[|issues| - 1].row}
  }

  /** An issue names a row of the batch and carries a code. */
  predicate ValidIssue(c: Codec, b: ParsedBatch, issue: Issue) {
    b.first <= issue.row < b.first + |b.rows| && c.trim(issue.code.chars) != ""
  }

  /** Issues are valid, and as many rows have been normalized as there are rows without issue. */
  predicate Acceptable(c: Codec, b: ParsedBatch, a: Answer) {
    && (forall i :: 0 <= i < |a.issues| ==> ValidIssue(c, b, a.issues[i]))
    && |a.normalized| == |b.rows| - |RowsWithIssues(a.issues)|
  }

  function Issues(answers: seq<Answer>): seq<Issue> {
    if answers == [] then [] else Issues(answers[..|answers| - 1]) + answers[|answers| - 1].issues
  }

  function Normalized(answers: seq<Answer>): seq<Row> {
    if answers == [] then [] else Normalized(answers[..|answers| - 1]) + answers[|answers| - 1].normalized
  }

  function InvalidCount(answers: seq<Answer>): nat {
    if answers == [] then 0
    else InvalidCount(answers[..|answers| - 1]) + |RowsWithIssues(answers[|answers| - 1].issues)|
  }

  lemma AnswersSnoc(answers: seq<Answer>, a: Answer)
    ensures Issues(answers + [a]) == Issues(answers) + a.issues
    ensures Normalized(answers + [a]) == Normalized(answers) + a.normalized
    ensures InvalidCount(answers + [a]) == InvalidCount(answers) + |RowsWithIssues(a.issues)|
  {
    assert (answers + [a])[..|answers|] == answers;
  }

  /** Every row of every accepted batch is counted once, as valid or as invalid. */
  lemma {:induction false} CountsConserve(c: Codec, calls: seq<ParsedBatch>, answers: seq<Answer>)
    requires |calls| == |answers| && forall i :: 0 <= i < |calls| ==> Acceptable(c, calls[i], answers[i])
    ensures |Normalized(answers)| + InvalidCount(answers) == |Flatten(calls)|
  {
    if calls != [] { CountsConserve(c, calls[..|calls| - 1], answers[..|answers| - 1]); }
  }

  /** Distinct numbers out of `n` consecutive ones are at most `n`. */
  lemma {:induction false} AtMost(s: set<int>, first: int, n: nat)
    requires forall x :: x in s ==> first <= x < first + n
    ensures |s| <= n
  {
    if n > 0 {
      AtMost(s - {first + n - 1}, first, n - 1);
    } else {
      forall x ensures x !in s {}
      assert s == {};
    }
  }

  // ---- a provider that judges row by row ----

  datatype Verdict = Verdict(issues: seq<Issue>, normalized: Option<Row>)

  /** A row is normalized or has issues, which carry its number. */
  ghost predicate RowWise(judge: (int, Row) -> Verdict) {
    forall n, row {:trigger judge(n, row)} ::
      && (judge(n, row).issues == [] <==> judge(n, row).normalized.Some?)
      && (forall i :: 0 <= i < |judge(n, row).issues| ==> judge(n, row).issues[i].row == n)
  }

  /** The answer to `rows` numbered from `first` on. */
  function Judged(judge: (int, Row) -> Verdict, first: int, rows: seq<Row>): Answer {
    if rows == [] then Answer([], [])
    else
      var before, v := Judged(judge, first, rows[..|rows| - 1]), judge(first + |rows| - 1, rows[|rows| - 1]);
      Answer(before.issues + v.issues, before.normalized + if v.normalized.Some? then [v.normalized.value] else [])
  }

  lemma {:induction false} JudgedConcat(judge: (int, Row) -> Verdict, first: int, a: seq<Row>, b: seq<Row>)
    ensures var x, y := Judged(judge, first, a), Judged(judge, first + |a|, b);
      Judged(judge, first, a + b) == Answer(x.issues + y.issues, x.normalized + y.normalized)
  {
    if b == [] {
      assert a + b == a;
    } else {
      var init := b[..|b| - 1];
      JudgedConcat(judge, first, a, init);
      assert (a + b)[..|a + b| - 1] == a + init;
    }
  }

  /** The provider answers each batch row by row. */
  ghost predicate AnswersByRow(judge: (int, Row) -> Verdict, calls: seq<ParsedBatch>, answers: seq<Answer>) {
    |calls| == |answers|
    && forall i :: 0 <= i < |calls| ==> answers[i] == Judged(judge, calls[i].first, calls[i].rows)
  }

  /** The provider judged every batch of the log row by row. */
  ghost predicate JudgedByRow(judge: (int, Row) -> Verdict, log: seq<Exchanged>) {
    forall i :: 0 <= i < |log| && log[i].message.ValidateRows? ==>
      AnswerOf(log[i].response) == Judged(judge, log[i].message.first, log[i].message.rows)
  }

  lemma RecordedByRow(judge: (int, Row) -> Verdict, scope: Scope, dataset: Text, job: Id,
                      calls: seq<ParsedBatch>, answers: seq<Answer>, log: seq<Exchanged>)
    requires Recorded(scope, dataset, job, calls, answers, log) && JudgedByRow(judge, log)
    ensures AnswersByRow(judge, calls, answers)
  {
    forall i | 0 <= i < |calls| ensures answers[i] == Judged(judge, calls[i].first, calls[i].rows) {
      assert log[i].message == ValidateMessage(scope, dataset, job, calls[i]);
    }
  }

  /** Batch by batch or all at once: the answers to the batches of a file, put together, are the
      answer to the file as one sequence of rows. */
  lemma {:induction false} BatchesDoNotMatter(judge: (int, Row) -> Verdict, rows: seq<Row>, size: nat, answers: seq<Answer>)
    requires size > 0 && AnswersByRow(judge, Batches(rows, size), answers)
    ensures Issues(answers) == Judged(judge, 2, rows).issues
    ensures Normalized(answers) == Judged(judge, 2, rows).normalized
    decreases |rows|
  {
    if rows != [] {
      var k, n := LastIndex(|rows|, size), |answers| - 1;
      var init, last := rows[..k * size], rows[k * size..];
      InitAnswers(judge, rows, size, answers, k);
      BatchesDoNotMatter(judge, init, size, answers[..n]);
      LastAnswer(judge, init, last, answers);
      assert init + last == rows;
    } else {
      assert answers == [];
    }
  }

  lemma LastAnswer(judge: (int, Row) -> Verdict, init: seq<Row>, last: seq<Row>, answers: seq<Answer>)
    requires answers != [] && answers[|answers| - 1] == Judged(judge, 2 + |init|, last)
    requires Issues(answers[..|answers| - 1]) == Judged(judge, 2, init).issues
    requires Normalized(answers[..|answers| - 1]) == Judged(judge, 2, init).normalized
    ensures Issues(answers) == Judged(judge, 2, init + last).issues
    ensures Normalized(answers) == Judged(judge, 2, init + last).normalized
  {
    JudgedConcat(judge, 2, init, last);
  }

  /** All answers but the last are those to the full batches before the last one. */
  lemma InitAnswers(judge: (int, Row) -> Verdict, rows: seq<Row>, size: nat, answers: seq<Answer>, k: nat)
    requires size > 0 && rows != [] && AnswersByRow(judge, Batches(rows, size), answers) && k == LastIndex(|rows|, size)
    ensures answers != [] && AnswersByRow(judge, Batches(rows[..k * size], size), answers[..|answers| - 1])
    ensures answers[|answers| - 1] == Judged(judge, 2 + k * size, rows[k * size..])
  {
    var calls, n := Batches(rows, size), |answers| - 1;
    assert calls[..n] == Batches(rows[..k * size], size);
    forall i | 0 <= i < n ensures answers[..n][i] == Judged(judge, calls[..n][i].first, calls[..n][i].rows) {
      assert answers[i] == Judged(judge, calls[i].first, calls[i].rows);
    }
    assert answers[n] == Judged(judge, calls[n].first, calls[n].rows);
  }

  /** Rows without a normalized form are exactly the rows with issues. */
  lemma {:induction false} JudgedCounts(judge: (int, Row) -> Verdict, first: int, rows: seq<Row>)
    requires RowWise(judge)
    ensures |RowsWithIssues(Judged(judge, first, rows).issues)| + |Judged(judge, first, rows).normalized| == |rows|
    ensures forall x :: x in RowsWithIssues(Judged(judge, first, rows).issues) ==> first <= x < first + |rows|
  {
    if rows != [] {
      var n := first + |rows| - 1;
      var before, v := Judged(judge, first, rows[..|rows| - 1]), judge(n, rows[|rows| - 1]);
      JudgedCounts(judge, first, rows[..|rows| - 1]);
      RowsWithIssuesConcat(before.issues, v.issues);
      if v.issues == [] {
        assert RowsWithIssues(v.issues) == {};
      } else {
        OneRow(v.issues, n);
        assert n !in RowsWithIssues(before.issues);
      }
    }
  }

  lemma RowsSnoc(issues: seq<Issue>, issue: Issue)
    ensures RowsWithIssues(issues + [issue]) == RowsWithIssues(issues) + {issue.row}
  {
    assert (issues + [issue])[..|issues|] == issues;
  }

  lemma {:induction false} RowsWithIssuesConcat(a: seq<Issue>, b: seq<Issue>)
    ensures RowsWithIssues(a + b) == RowsWithIssues(a) + RowsWithIssues(b)
  {
    if b == [] {
      assert a + b == a;
    } else {
      assert (a + b)[..|a + b| - 1] == a + b[..|b| - 1];
      RowsWithIssuesConcat(a, b[..|b| - 1]);
    }
  }

  lemma {:induction false} OneRow(issues: seq<Issue>, n: int)
    requires issues != [] && forall i :: 0 <= i < |issues| ==> issues[i].row == n
    ensures RowsWithIssues(issues) == {n}
  {
    if |issues| > 1 { OneRow(issues[..|issues| - 1], n); }
  }

  /** A row has an issue in the set exactly when the set of rows names it. */
  lemma {:induction false} RowsNamed(issues: seq<Issue>, row: int)
    ensures row in RowsWithIssues(issues) <==> exists i :: 0 <= i < |issues| && issues[i].row == row
  {
    if issues != [] {
      RowsNamed(issues[..|issues| - 1], row);
      if issues[|issues| - 1].row != row && exists i :: 0 <= i < |issues| && issues[i].row == row {
        var i :| 0 <= i < |issues| && issues[i].row == row;
        assert issues[..|issues| - 1][i].row == row;
      }
    }
  }

  /** Valid issues never name more rows than the batch has: the count of valid rows is not negative. */
  lemma IssueRowsFit(c: Codec, b: ParsedBatch, issues: seq<Issue>)
    requires forall i :: 0 <= i < |issues| ==> ValidIssue(c, b, issues[i])
    ensures |RowsWithIssues(issues)| <= |b.rows|
  {
    forall x | x in RowsWithIssues(issues) ensures b.first <= x < b.first + |b.rows| { RowsNamed(issues, x); }
    AtMost(RowsWithIssues(issues), b.first, |b.rows|);
  }
}
