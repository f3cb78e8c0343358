/** A file that validation accepts and apply cannot read back: the encoding of its one row does not
    fit the line buffer. */
module LongRows {
  import opened Rows
  import opened Jobs
  import opened Lines
  import opened Readers
  import opened Batching
  import opened Files
  import opened Tallies
  import opened Parser
  import opened Protocol
  import opened Pipelines

  const ROW: Row := map["text" := Null]
  const FILE: Bytes := [65, NEWLINE]
  const LIMITS := Limits(1, 1, MAX_TOKEN + 1)

  /** 16 MiB of the letter A. */
  function LongLine(): (line: Bytes)
    ensures |line| == MAX_TOKEN && OneLine(line) && DropReturn(line) == line
  {
    seq(MAX_TOKEN, _ => 65)
  }

  /** Every line decodes to the one row, which has a long encoding; no other row has any. */
  function LongCodec(): Codec {
    Codec((row: Row) => if row == ROW then Some(LongLine()) else None, (line: Bytes) => Some(ROW), (line: Bytes) => false,
          (s: string) => s, (bs: Bytes) => [], (bs: Bytes) => true, [], issue => [], (bs: Bytes) => EMPTY, (t: Text) => t)
  }

  lemma LongCodecIsLawful()
    ensures Lawful(LongCodec())
  {
  }

  lemma FileHasOneRow()
    ensures Split(FILE) == [[65]] && Terminated(FILE) && JsonRows(LongCodec(), FILE) == FileRows([ROW], true)
  {
    assert FILE == [] + ([65] + [NEWLINE]);
    SplitLine([], [65]);
    assert Split([]) == [];
    DecodeSnoc(LongCodec(), [], [65]);
  }

  function Accepted(): Checked
    requires Encodable(LongCodec(), [ROW])
  {
    Checked(Report(Counts(1, 1, 0), [ROW]), Encoded(LongCodec(), [ROW]), [])
  }

  lemma OneBatch()
    ensures Batches([ROW], 1) == [ParsedBatch(1, 2, [ROW])]
  {
    BatchesSnoc([], [ROW], 0, 1);
  }

  /** Validation accepts the file: the provider has normalized its row and has no issue with it. */
  lemma ValidationAccepts()
    ensures Encodable(LongCodec(), [ROW])
    ensures CheckedFile(LongCodec(), Jsonl, FILE, EMPTY, LIMITS, [Answer([], [ROW])], Accepted())
  {
    var c, answers := LongCodec(), [Answer([], [ROW])];
    FileHasOneRow();
    OneBatch();
    AnswersSnoc([], answers[0]);
    EncodedSnoc(c, [], ROW);
    assert [] + [ROW] == [ROW] && [] + answers == answers;
    assert |Encoded(c, [ROW])| == MAX_TOKEN + 1;
    assert Short(Split(FILE));
  }

  /** Apply never delivers it, whatever its batch size and limits. */
  lemma ApplyRefuses(l: Limits, calls: seq<ParsedBatch>, result: ParseResult)
    requires Encodable(LongCodec(), [ROW])
    ensures !Delivered(LongCodec(), Jsonl, Accepted().normalized, l.batchSize, l.maxRows, l.maxBytes, calls, result)
  {
    var c := LongCodec();
    LongCodecIsLawful();
    assert [ROW][0] == ROW && |c.encode(ROW).value| == MAX_TOKEN;
    if Delivered(c, Jsonl, Encoded(c, [ROW]), l.batchSize, l.maxRows, l.maxBytes, calls, result) {
      ReadBackWhole(c, [ROW], l.batchSize, l.maxRows, l.maxBytes, calls, result);
    }
  }
}
