/** Streaming the rows of a file to a consumer, in batches and under a row and a byte limit. */
module Parser {
  import opened Rows
  import opened Jobs
  import opened Lines
  import opened Readers
  import opened Batching
  import opened Files
  import opened Consumers
  import opened Hiding

  datatype Format = Csv | Jsonl | Unknown

  datatype ParseResult = ParseResult(rows: int, bytes: int, checksum: Text)

  /** The rows a file of the given format holds. */
  function RowsOf(c: Codec, format: Format, content: Bytes): FileRows {
    match format
    case Csv => CsvRows(c, content)
    case Jsonl => JsonRows(c, content)
    case Unknown => FileRows([], false)
  }

  /** The rows of a file that can be seen under a byte limit. A cut line counts as a line; a cut record
      is no record. */
  function RowsWithin(c: Codec, format: Format, content: Bytes, maxBytes: int): FileRows
    requires maxBytes >= 0
  {
    RowsOf(c, format, if format.Jsonl? then Visible(content, maxBytes) else content)
  }

  /** They are the first rows of the file, unless the limit cuts a line of a JSON Lines file. */
  lemma RowsWithinAreFirst(c: Codec, format: Format, content: Bytes, maxBytes: int)
    requires maxBytes >= 0
    requires format.Jsonl? && |content| > maxBytes ==> Terminated(content[..maxBytes])
    ensures RowsWithin(c, format, content, maxBytes).rows <= RowsOf(c, format, content).rows
    ensures |content| <= maxBytes ==> RowsWithin(c, format, content, maxBytes) == RowsOf(c, format, content)
  {
    if format.Jsonl? { JsonPrefix(c, content, |Visible(content, maxBytes)|); }
  }

  /** Records of a CSV file. The reader reads ahead as it likes; it reports the end or a malformed record only
      after everything before it, and a failure of its input at any time after that has happened. */
  class CsvReader {
    const input: LimitReader
    const codec: Codec
    var next: nat              // records already returned
    var err: Option<ReadError>

    ghost predicate Valid()
      reads this, input, input.source
    {
      && input.Valid() && next <= |codec.records(input.source.content)|
      && (err == Some(EndOfFile) ==> input.Whole())
      && (err.Some? ==> err.value.EndOfFile? || err.value.ByteLimit? || err.value.Broken?)
      && (err == Some(ByteLimit) <==> input.exceeded)
      && (err == Some(Broken) ==> input.source.broken)
    }

    constructor (input: LimitReader, codec: Codec)
      requires input.Valid() && input.read == 0 && !input.exceeded
      ensures Valid() && this.input == input && this.codec == codec && next == 0
    {
      this.input, this.codec, next, err := input, codec, 0, None;
    }

    method ReadAhead(all: bool)
      requires Valid()
      modifies this`err, input, input.source
      ensures Valid() && (all ==> err.Some?)
    {
      var more: nat := *;
      while err.None? && (all || more > 0)
        invariant Valid()
        decreases err.None?, |input.source.content| - input.read
      {
        var want: nat :| want > 0;
        var chunk;
        chunk, err := input.Pull(want, 100);
        if err == Some(EndOfFile) { input.EndMeansWhole(EndOfFile); }
        more := if more > 0 then more - 1 else 0;
      }
    }

    method Read() returns (record: Option<seq<string>>, e: Option<Error>)
      requires Valid()
      modifies this, input, input.source
      ensures Valid()
      ensures record.Some? ==>
                && e.None? && next == old(next) + 1 <= |codec.records(input.source.content)|
                && record.value == codec.records(input.source.content)[old(next)]
      ensures record.None? ==> next == old(next)
      ensures record.None? && e.None? ==>
                next == |codec.records(input.source.content)| && codec.wellFormed(input.source.content) && input.Whole()
      ensures e.Some? ==>
                || (e == Some(Malformed) && next == |codec.records(input.source.content)|
                    && !codec.wellFormed(input.source.content))
                || (e == Some(ByteLimitExceeded) && input.exceeded)
                || (e == Some(ReadFailed) && input.source.broken)
    {
      ghost var content := input.source.content;
      var records := codec.records(input.source.content);
      ReadAhead(next == |records|);
      var early: bool := *;
      if next < |records| && (err.None? || err.value.EndOfFile? || !early) {
        next := next + 1;
        return Some(records[next - 1]), None;
      }
      record := None;
      match err.value
      case EndOfFile => e := if codec.wellFormed(input.source.content) then None else Some(Malformed);
      case ByteLimit => e := Some(ByteLimitExceeded);
      case Broken => e := Some(ReadFailed);
    }
  }

  /** Trim the column names in place and check that they are usable. */
  method ValidateHeaders(c: Codec, values: array<string>) returns (ok: bool)
    modifies values
    ensures ok <==> UsableHeaders(Trimmed(c, old(values[..])))
    ensures ok ==> values[..] == Trimmed(c, old(values[..]))
  {
    ghost var trimmed := Trimmed(c, values[..]);
    if values.Length == 0 { return false; }
    var seen: set<string> := {};
    var i := 0;
    while i < values.Length
      invariant 0 <= i <= values.Length
      invariant forall k :: 0 <= k < i ==> values[k] == trimmed[k] && trimmed[k] != ""
      invariant forall k :: i <= k < values.Length ==> values[k] == old(values[k])
      invariant forall name :: name in seen <==> exists k :: 0 <= k < i && trimmed[k] == name
      invariant forall j, k :: 0 <= j < k < i ==> trimmed[j] != trimmed[k]
    {
      values[i] := c.trim(values[i]);
      assert values[i] == trimmed[i];
      if values[i] == "" { return false; }
      if values[i] in seen {
        ghost var k :| 0 <= k < i && trimmed[k] == values[i];
        assert trimmed[i] == trimmed[k];
        return false;
      }
      seen := seen + {values[i]};
      i := i + 1;
    }
    ok := true;
  }

  /** The row of a record with as many values as there are columns. */
  method MakeRow(headers: array<string>, values: seq<string>) returns (row: Row)
    requires |values| == headers.Length
    ensures row == Zip(headers[..], values)
  {
    row := map[];
    var i := 0;
    while i < headers.Length
      invariant 0 <= i <= headers.Length && row == Zip(headers[..i], values[..i])
    {
      assert headers[..i + 1][..i] == headers[..i] && values[..i + 1][..i] == values[..i];
      row := row[headers[i] := Str(values[i])];
      i := i + 1;
    }
    assert headers[..headers.Length] == headers[..] && values[..|values|] == values;
  }

  /** The state `StreamRows` shares with its emit callback. */
  class RowStream {
    const consumer: Consumer
    const codec: Codec
    const batchSize: int
    const maxRows: int
    var rows: int
    ghost var emitted: seq<Row>

    /** The invariant, unfolded only where `Look` asks for it. */
    ghost predicate Valid()
      reads this, consumer, consumer.Repr
    {
      forall k {:trigger Asked(k)} :: Asked(k) ==> Sound()
    }

    lemma Look()
      requires Valid()
      ensures Sound()
    {
      assert Asked(0);
    }

    /** Everything emitted so far has been cut into batches and accepted. */
    ghost predicate Sound()
      reads this, consumer, consumer.Repr
    {
      && batchSize >= 1 && this !in consumer.Repr
      && consumer.Valid() && !consumer.failed
      && rows == |emitted| <= maxRows
      && consumer.calls == Batches(emitted, batchSize)
    }

    /** The consumer has been called with the first batches of `all`, and with no more rows than allowed. */
    ghost predicate Stopped(all: seq<Row>)
      reads this, consumer, consumer.Repr
    {
      && batchSize >= 1 && consumer.Valid()
      && consumer.calls <= Batches(all, batchSize)
      && |Flatten(consumer.calls)| <= maxRows
    }

    constructor (consumer: Consumer, codec: Codec, batchSize: int, maxRows: int)
      requires batchSize >= 1 && maxRows >= 0 && consumer.Valid() && !consumer.failed && consumer.calls == []
      ensures Valid() && emitted == [] && this.consumer == consumer && this.codec == codec
      ensures this.batchSize == batchSize && this.maxRows == maxRows
    {
      this.consumer, this.codec, this.batchSize, this.maxRows := consumer, codec, batchSize, maxRows;
      rows, emitted := 0, [];
    }

    /** An error of the consumer is the one it has failed with. */
    ghost predicate Told(err: Option<Error>)
      reads consumer
    {
      err.Some? && FromConsumer(err.value) ==> consumer.failed && consumer.fault == err
    }

    /** Call the consumer, and count its rows unless it fails. */
    method Call(batch: ParsedBatch) returns (err: Option<Error>)
      requires this !in consumer.Repr && consumer.Valid() && !consumer.failed && batch.number == |consumer.calls| + 1
      modifies this`rows, this`emitted, consumer.Repr
      ensures consumer.Valid() && consumer.calls == old(consumer.calls) + [batch] && (consumer.failed <==> err.Some?)
      ensures err.None? ==> rows == old(rows) + |batch.rows| && emitted == old(emitted) + batch.rows
      ensures this !in consumer.Repr
      ensures err.Some? ==> FromConsumer(err.value)
      ensures Told(err)
    {
      err := consumer.Consume(batch);
      if err.None? { rows, emitted := rows + |batch.rows|, emitted + batch.rows; }
    }

    /** Hand over up to a batch of rows. Numbers follow from the rows counted so far. */
    method Emit(values: seq<Row>, ghost k: nat) returns (err: Option<Error>)
      requires Valid() && |values| <= batchSize && |emitted| == k * batchSize
      modifies this`rows, this`emitted, consumer.Repr
      ensures err.None? ==> Valid() && emitted == old(emitted) + values
      ensures err.Some? ==> Stopped(old(emitted) + values)
      ensures err == Some(RowLimitExceeded) ==> |old(emitted) + values| > maxRows
      ensures err.Some? ==> err == Some(RowLimitExceeded) || err == Some(ContextDone) || FromConsumer(err.value)
      ensures Told(err)
    {
      Look();
      ghost var all := emitted + values;
      if |values| == 0 {
        assert all == emitted;
        return None;
      }
      ghost var calls := consumer.calls;
      var batch := ParsedBatch(rows / batchSize + 1, rows + 2, values);
      NextBatch(emitted, values, k, batchSize);
      var contextDone: bool := *;
      if contextDone { return Some(ContextDone); }
      if rows + |values| > maxRows { return Some(RowLimitExceeded); }
      err := Call(batch);
      assert consumer.calls == calls + [batch] == Batches(all, batchSize);
    }

    /** Collect one more row, and hand the batch over when it is full. */
    method Add(batch: seq<Row>, row: Row, ghost k: nat) returns (rest: seq<Row>, err: Option<Error>, ghost k': nat)
      requires Valid() && |batch| < batchSize && |emitted| == k * batchSize
      modifies this`rows, this`emitted, consumer.Repr
      ensures err.None? ==>
                && Valid() && |rest| < batchSize && |emitted| == k' * batchSize
                && emitted + rest == old(emitted) + batch + [row]
      ensures err.Some? ==> Stopped(old(emitted) + batch + [row]) && |old(emitted) + batch + [row]| == k' * batchSize
      ensures err == Some(RowLimitExceeded) ==> |old(emitted) + batch + [row]| > maxRows
      ensures err.Some? ==> err == Some(RowLimitExceeded) || err == Some(ContextDone) || FromConsumer(err.value)
      ensures Told(err)
    {
      rest, err, k' := batch + [row], None, k;
      assert emitted + rest == emitted + batch + [row];
      if |rest| == batchSize {
        err := Emit(rest, k);
        NextMultiple(k, batchSize);
        rest, k' := [], k + 1;
      }
    }

    /** Whatever the file, the consumer never sees more rows than allowed. */
    ghost predicate Within()
      reads this, consumer, consumer.Repr
    {
      consumer.Valid() && |Flatten(consumer.calls)| <= maxRows
    }

    lemma ValidWithin()
      requires Valid()
      ensures Within() && Stopped(emitted)
    {
      Look();
      BatchesPartition(emitted, batchSize);
    }

    /** Stopping after full batches of the first rows is stopping within the batches of all rows. */
    lemma StoppedEarly(part: seq<Row>, k: nat, all: seq<Row>)
      requires Stopped(part) && |part| == k * batchSize && part <= all
      ensures Stopped(all)
    {
      assert all[..k * batchSize] == part;
      BatchesPrefix(all, k, batchSize);
    }

    lemma StoppedBetween(k: nat, all: seq<Row>)
      requires Valid() && |emitted| == k * batchSize && emitted <= all
      ensures Stopped(all)
    {
      Look();
      ValidWithin();
      StoppedEarly(emitted, k, all);
    }

    /** What an error of the rows read so far says: `part` are the rows of the full batches, accepted
        or not, out of the rows `file`. */
    ghost predicate StoppedAt(err: Error, part: seq<Row>, k: nat, file: FileRows)
      reads this, consumer, consumer.Repr
    {
      && Stopped(part) && |part| == k * batchSize && part <= file.rows
      && (err.RowLimitExceeded? || err.ContextDone? || err.Malformed? || FromConsumer(err))
      && (err.RowLimitExceeded? ==> |part| > maxRows)
      && (err.Malformed? ==> !file.ok)
      && Told(Some(err))
    }

    /** All rows of `file` have been read, and the full batches of them accepted. */
    ghost predicate Collecting(batch: seq<Row>, k: nat, file: FileRows)
      reads this, consumer, consumer.Repr
    {
      Valid() && |batch| < batchSize && |emitted| == k * batchSize && file == FileRows(emitted + batch, true)
    }

    /** One line of a JSON Lines file. */
    method TakeToken(token: Bytes, batch: seq<Row>, ghost k: nat, ghost file: FileRows, ghost line: Bytes)
      returns (rest: seq<Row>, err: Option<Error>, ghost k': nat, ghost part: seq<Row>)
      requires Collecting(batch, k, file) && token == DropReturn(line)
      modifies this`rows, this`emitted, consumer.Repr
      ensures err.None? ==> Collecting(rest, k', DecodeLine(codec, file, line))
      ensures err.Some? ==> StoppedAt(err.value, part, k', DecodeLine(codec, file, line))
    {
      rest, err, k', part := batch, None, k, emitted;
      if codec.blank(token) { return; }
      var row := codec.decode(token);
      if row.None? {
        ValidWithin();
        return rest, Some(Malformed), k', part;
      }
      part := emitted + batch + [row.value];
      rest, err, k' := Add(batch, row.value, k);
    }

    /** The scanner works on its own objects. */
    ghost predicate Apart(scanner: Scanner) {
      scanner !in consumer.Repr && scanner.input !in consumer.Repr && scanner.input.source !in consumer.Repr
    }

    /** The next line, if there is one. */
    method FetchLine(scanner: Scanner, ghost batch: seq<Row>, ghost k: nat) returns (token: Option<Bytes>, ghost line: Bytes)
      requires scanner.Valid() && scanner.AtLine() && scanner.err != Some(LineTooLong) && Apart(scanner)
      requires Collecting(batch, k, DecodeLines(codec, scanner.lines))
      modifies scanner, scanner.input, scanner.input.source
      ensures scanner.Valid() && scanner.AtLine() && old(scanner.start) <= scanner.start
      ensures token.Some? ==>
                && old(scanner.start) < scanner.start && scanner.err != Some(LineTooLong) && token.value == DropReturn(line)
                && DecodeLines(codec, scanner.lines) == DecodeLine(codec, DecodeLines(codec, old(scanner.lines)), line)
      ensures token.None? ==> scanner.Ended() && scanner.lines == old(scanner.lines)
      ensures Collecting(batch, k, DecodeLines(codec, old(scanner.lines)))
    {
      ghost var lines := scanner.lines;
      token, line := scanner.Scan();
      assert consumer.Valid();
      assert Valid();
      if token.Some? { DecodeSnoc(codec, lines, line); }
    }

    /** One round of the loop over the lines. */
    method NextLine(scanner: Scanner, batch: seq<Row>, ghost k: nat)
      returns (more: bool, rest: seq<Row>, err: Option<Error>, ghost k': nat, ghost part: seq<Row>)
      requires scanner.Valid() && scanner.AtLine() && scanner.err != Some(LineTooLong) && Apart(scanner)
      requires Collecting(batch, k, DecodeLines(codec, scanner.lines))
      modifies this`rows, this`emitted, consumer.Repr, scanner, scanner.input, scanner.input.source
      ensures scanner.Valid() && scanner.AtLine() && old(scanner.start) <= scanner.start
      ensures more ==> old(scanner.start) < scanner.start && scanner.err != Some(LineTooLong)
      ensures !more ==> err.None? && scanner.Ended()
      ensures err.None? ==> Collecting(rest, k', DecodeLines(codec, scanner.lines))
      ensures err.Some? ==> StoppedAt(err.value, part, k', DecodeLines(codec, scanner.lines))
    {
      ghost var file, line := DecodeLines(codec, scanner.lines), [];
      var token;
      token, line := FetchLine(scanner, batch, k);
      more, rest, err, k', part := token.Some?, batch, None, k, [];
      if more { rest, err, k', part := TakeToken(token.value, batch, k, file, line); }
    }

    /** The lines of a JSON Lines file. */
    method ReadLines(scanner: Scanner) returns (batch: seq<Row>, err: Option<Error>, ghost k: nat, ghost part: seq<Row>)
      requires scanner.Valid() && scanner.AtLine() && scanner.lines == [] && scanner.err.None? && Apart(scanner)
      requires Valid() && emitted == []
      modifies this`rows, this`emitted, consumer.Repr, scanner, scanner.input, scanner.input.source
      ensures scanner.Valid() && scanner.AtLine()
      ensures err.None? ==> Collecting(batch, k, DecodeLines(codec, scanner.lines)) && scanner.Ended()
      ensures err.Some? ==> StoppedAt(err.value, part, k, DecodeLines(codec, scanner.lines)) && scanner.err != Some(LineTooLong)
    {
      Look();
      var more := true;
      batch, err, k, part := [], None, 0, [];
      while more && err.None?
        invariant scanner.Valid() && scanner.AtLine()
        invariant more ==> scanner.err != Some(LineTooLong)
        invariant !more ==> err.None? && scanner.Ended()
        invariant err.None? ==> Collecting(batch, k, DecodeLines(codec, scanner.lines))
        invariant err.Some? ==> StoppedAt(err.value, part, k, DecodeLines(codec, scanner.lines))
        decreases |scanner.input.source.content| - scanner.start, more
      {
        more, batch, err, k, part := NextLine(scanner, batch, k);
      }
    }

    /** What is left to say at the end of a stream: the result, the limit, and for a file that was
        read without trouble how the calls and the error relate to it. */
    ghost predicate Streamed(err: Option<Error>, format: Format, input: LimitReader)
      reads this, consumer, consumer.Repr, input, input.source
    {
      var content, file := input.source.content, RowsOf(codec, format, input.source.content);
      && input.Valid() && consumer.Valid() && |Flatten(consumer.calls)| <= maxRows
      && (err.None? ==> Valid() && input.Whole() && file == FileRows(emitted, true) && Readable(codec, format, content))
      && (!input.source.broken ==>
            batchSize >= 1 && consumer.calls <= Batches(RowsWithin(codec, format, content, input.max).rows, batchSize))
      && Told(err)
      && (err.Some? ==> Blames(codec, format, err.value, input))
      && (err.Some? && input.Fits() ==> Explains(err.value, file, maxRows))
    }

    /** An error among the first rows of the file. */
    lemma StoppedStreams(err: Error, part: seq<Row>, k: nat, read: FileRows, format: Format, input: LimitReader)
      requires StoppedAt(err, part, k, read) && input.Valid()
      requires !input.source.broken ==> read.rows <= RowsWithin(codec, format, input.source.content, input.max).rows
      requires input.Fits() ==> (RowsOf(codec, format, input.source.content).ok ==> read.ok)
      ensures Streamed(Some(err), format, input)
    {
      if !input.source.broken { StoppedEarly(part, k, RowsWithin(codec, format, input.source.content, input.max).rows); }
      if input.Fits() { RowsWithinAreFirst(codec, format, input.source.content, input.max); }
    }

    /** The last, possibly partial batch, when the file has been read to its end. */
    method Finish(batch: seq<Row>, ghost k: nat, format: Format, input: LimitReader) returns (err: Option<Error>)
      requires Collecting(batch, k, RowsOf(codec, format, input.source.content)) && input.Valid() && input.Whole()
      requires Readable(codec, format, input.source.content)
      requires input !in consumer.Repr && input.source !in consumer.Repr
      modifies this`rows, this`emitted, consumer.Repr
      ensures Streamed(err, format, input)
    {
      err := Emit(batch, k);
      assert input.Valid() && input.Whole();
      if err.None? {
        ValidWithin();
        Look();
      }
      RowsWithinAreFirst(codec, format, input.source.content, input.max);
    }

    /** The lines read so far give the first of the rows that can be seen. */
    lemma ScannedPrefix(scanner: Scanner)
      requires scanner.Valid() && scanner.AtLine() && !scanner.input.source.broken
      ensures var read := DecodeLines(codec, scanner.lines);
        var file := RowsWithin(codec, Jsonl, scanner.input.source.content, scanner.input.max);
        read.rows <= file.rows && (file.ok ==> read.ok)
    {
      var content, seen := scanner.input.source.content, Visible(scanner.input.source.content, scanner.input.max);
      if scanner.err != Some(LineTooLong) { scanner.WholeLines(); }
      assert content[..scanner.start] == seen[..scanner.start];
      JsonPrefix(codec, seen, scanner.start);
    }

    lemma StoppedScan(scanner: Scanner, err: Error, part: seq<Row>, k: nat)
      requires scanner.Valid() && scanner.AtLine() && StoppedAt(err, part, k, DecodeLines(codec, scanner.lines))
      ensures Streamed(Some(err), Jsonl, scanner.input)
    {
      if !scanner.input.source.broken { ScannedPrefix(scanner); }
      StoppedStreams(err, part, k, DecodeLines(codec, scanner.lines), Jsonl, scanner.input);
    }

    /** At the end of the file its lines have been read. */
    lemma ScannedAll(scanner: Scanner, batch: seq<Row>, k: nat)
      requires scanner.Valid() && scanner.AtLine() && scanner.Ended() && Collecting(batch, k, DecodeLines(codec, scanner.lines))
      requires scanner.err == Some(EndOfFile)
      ensures scanner.input.exceeded || scanner.input.Whole()
      ensures scanner.input.Whole() ==>
                && Collecting(batch, k, JsonRows(codec, scanner.input.source.content))
                && Readable(codec, Jsonl, scanner.input.source.content)
    {
      ghost var content := scanner.input.source.content;
      scanner.input.EndMeansWhole(EndOfFile);
      assert content[..|content|] == content;
    }

    /** The error of the scanner, if it is one. */
    predicate ScanErrorOf(e: ReadError, err: Error) {
      (e.LineTooLong? && err == TokenTooLong) || (e.Broken? && err == ReadFailed) || (e.ByteLimit? && err == ByteLimitExceeded)
    }

    lemma ScanBlames(scanner: Scanner, err: Error)
      requires scanner.Valid() && scanner.Ended() && ScanErrorOf(scanner.err.value, err)
      ensures Blames(codec, Jsonl, err, scanner.input)
    {
      if err.TokenTooLong? { LongLineOf(scanner.input.source.content, scanner.start, MAX_TOKEN); }
    }

    /** The batches so far are those of the first rows that can be seen. */
    lemma ScannedCalls(scanner: Scanner, batch: seq<Row>, k: nat)
      requires scanner.Valid() && scanner.AtLine() && Collecting(batch, k, DecodeLines(codec, scanner.lines))
      requires !scanner.input.source.broken
      ensures Stopped(RowsWithin(codec, Jsonl, scanner.input.source.content, scanner.input.max).rows)
    {
      ScannedPrefix(scanner);
      StoppedBetween(k, RowsWithin(codec, Jsonl, scanner.input.source.content, scanner.input.max).rows);
    }

    lemma ScanFailed(scanner: Scanner, batch: seq<Row>, k: nat, err: Error)
      requires scanner.Valid() && scanner.AtLine() && scanner.Ended() && Collecting(batch, k, DecodeLines(codec, scanner.lines))
      requires ScanErrorOf(scanner.err.value, err)
      ensures Streamed(Some(err), Jsonl, scanner.input)
    {
      assert Stopped(emitted) && Within() by { ValidWithin(); }
      assert Blames(codec, Jsonl, err, scanner.input) by { ScanBlames(scanner, err); }
      if !scanner.input.source.broken {
        assert Stopped(RowsWithin(codec, Jsonl, scanner.input.source.content, scanner.input.max).rows) by {
          ScannedCalls(scanner, batch, k);
        }
      }
    }

    /** Why there is no next line. */
    method ScanError(scanner: Scanner, ghost batch: seq<Row>, ghost k: nat) returns (err: Option<Error>)
      requires scanner.Valid() && scanner.AtLine() && scanner.Ended() && Collecting(batch, k, DecodeLines(codec, scanner.lines))
      ensures err.None? ==>
                && scanner.input.Whole() && Collecting(batch, k, JsonRows(codec, scanner.input.source.content))
                && Readable(codec, Jsonl, scanner.input.source.content)
      ensures err.Some? ==> Streamed(err, Jsonl, scanner.input)
    {
      match scanner.err.value
      case EndOfFile =>
        ScannedAll(scanner, batch, k);
        err := None;
      case LineTooLong =>
        ScanFailed(scanner, batch, k, TokenTooLong);
        err := Some(TokenTooLong);
      case Broken =>
        ScanFailed(scanner, batch, k, ReadFailed);
        err := Some(ReadFailed);
      case ByteLimit =>
        ScanFailed(scanner, batch, k, ByteLimitExceeded);
        err := Some(ByteLimitExceeded);
    }

    /** Everything but the last batch of a JSON Lines file. */
    method ReadJsonl(input: LimitReader) returns (batch: seq<Row>, err: Option<Error>, ghost k: nat)
      requires Valid() && emitted == [] && input.Valid() && input.read == 0 && !input.exceeded
      requires input !in consumer.Repr && input.source !in consumer.Repr
      modifies this`rows, this`emitted, consumer.Repr, input, input.source
      ensures err.None? ==> Collecting(batch, k, JsonRows(codec, input.source.content)) && input.Valid() && input.Whole()
      ensures err.None? ==> Readable(codec, Jsonl, input.source.content)
      ensures err.Some? ==> Streamed(err, Jsonl, input)
    {
      var scanner := new Scanner(input);
      ghost var part;
      batch, err, k, part := ReadLines(scanner);
      if err.Some? {
        StoppedScan(scanner, err.value, part, k);
        return;
      }
      err := ScanError(scanner, batch, k);
    }

    /** The rows of a JSON Lines file. */
    method StreamJsonl(input: LimitReader) returns (err: Option<Error>)
      requires Valid() && emitted == [] && input.Valid() && input.read == 0 && !input.exceeded
      requires input !in consumer.Repr && input.source !in consumer.Repr
      modifies this`rows, this`emitted, consumer.Repr, input, input.source
      ensures Streamed(err, Jsonl, input)
    {
      var batch;
      ghost var k;
      batch, err, k := ReadJsonl(input);
      if err.None? { err := Finish(batch, k, Jsonl, input); }
    }

    /** One record of a CSV file, with the rows of the records before it. */
    method TakeRecord(values: seq<string>, headers: array<string>, batch: seq<Row>, ghost k: nat, ghost records: seq<seq<string>>)
      returns (rest: seq<Row>, err: Option<Error>, ghost k': nat, ghost part: seq<Row>)
      requires Collecting(batch, k, ZipRecords(headers[..], records)) && headers !in consumer.Repr
      modifies this`rows, this`emitted, consumer.Repr
      ensures err.None? ==> Collecting(rest, k', ZipRecords(headers[..], records + [values]))
      ensures err.Some? ==> StoppedAt(err.value, part, k', ZipRecords(headers[..], records + [values]))
    {
      ghost var names := headers[..];
      assert (records + [values])[..|records|] == records;
      if |values| != headers.Length {
        ValidWithin();
        return batch, Some(Malformed), k, emitted;
      }
      var row := MakeRow(headers, values);
      part := emitted + batch + [row];
      rest, err, k' := Add(batch, row, k);
      assert headers[..] == names;
    }

    /** The records up to the reader's position have become rows. */
    ghost predicate InCsv(reader: CsvReader, names: seq<string>, batch: seq<Row>, k: nat)
      reads this, consumer, consumer.Repr, reader, reader.input, reader.input.source
    {
      && reader.Valid() && reader.codec == codec && reader.next >= 1
      && names == Trimmed(codec, codec.records(reader.input.source.content)[0])
      && Collecting(batch, k, ZipRecords(names, codec.records(reader.input.source.content)[1..reader.next]))
    }

    lemma StoppedCsv(reader: CsvReader, names: seq<string>, err: Error, part: seq<Row>, k: nat)
      requires reader.Valid() && reader.codec == codec && reader.next >= 1
      requires names == Trimmed(codec, codec.records(reader.input.source.content)[0])
      requires StoppedAt(err, part, k, ZipRecords(names, codec.records(reader.input.source.content)[1..reader.next]))
      ensures Streamed(Some(err), Csv, reader.input)
    {
      var content := reader.input.source.content;
      CsvPrefix(codec, content, reader.next);
      StoppedStreams(err, part, k, ZipRecords(names, codec.records(content)[1..reader.next]), Csv, reader.input);
    }

    /** An error of the reader itself. */
    lemma ReaderStopped(reader: CsvReader, err: Error, k: nat)
      requires reader.Valid() && Valid() && |emitted| == k * batchSize
      requires emitted <= CsvRows(codec, reader.input.source.content).rows
      requires (err.Malformed? && !CsvRows(codec, reader.input.source.content).ok)
            || (err.ByteLimitExceeded? && reader.input.exceeded)
            || (err.ReadFailed? && reader.input.source.broken)
            || (err.InvalidHeader? && !Readable(codec, Csv, reader.input.source.content))
      ensures Streamed(Some(err), Csv, reader.input)
    {
      ValidWithin();
      StoppedBetween(k, CsvRows(codec, reader.input.source.content).rows);
    }

    /** The next record, if there is one. */
    method FetchRecord(reader: CsvReader, ghost names: seq<string>, ghost batch: seq<Row>, ghost k: nat)
      returns (record: Option<seq<string>>, err: Option<Error>)
      requires InCsv(reader, names, batch, k) && reader !in consumer.Repr
      requires reader.input !in consumer.Repr && reader.input.source !in consumer.Repr
      modifies reader, reader.input, reader.input.source
      ensures reader.Valid() && reader.next == old(reader.next) + (if record.Some? then 1 else 0)
      ensures record.Some? ==> err.None? && record.value == codec.records(reader.input.source.content)[old(reader.next)]
      ensures record.None? && err.None? ==>
                && reader.next == |codec.records(reader.input.source.content)|
                && codec.wellFormed(reader.input.source.content) && reader.input.Whole()
      ensures err.Some? ==> Streamed(err, Csv, reader.input)
      ensures Collecting(batch, k, ZipRecords(names, codec.records(reader.input.source.content)[1..old(reader.next)]))
    {
      record, err := reader.Read();
      if err.Some? {
        CsvPrefix(codec, reader.input.source.content, reader.next);
        ReaderStopped(reader, err.value, k);
      }
    }

    /** Make a row of the record the reader has just returned. */
    method UseRecord(reader: CsvReader, values: seq<string>, headers: array<string>, batch: seq<Row>, ghost k: nat)
      returns (rest: seq<Row>, err: Option<Error>, ghost k': nat)
      requires reader.Valid() && reader.codec == codec && reader.next >= 2
      requires headers[..] == Trimmed(codec, codec.records(reader.input.source.content)[0])
      requires values == codec.records(reader.input.source.content)[reader.next - 1]
      requires Collecting(batch, k, ZipRecords(headers[..], codec.records(reader.input.source.content)[1..reader.next - 1]))
      requires reader !in consumer.Repr && headers !in consumer.Repr
      requires reader.input !in consumer.Repr && reader.input.source !in consumer.Repr
      modifies this`rows, this`emitted, consumer.Repr
      ensures err.None? ==> InCsv(reader, headers[..], rest, k')
      ensures err.Some? ==> Streamed(err, Csv, reader.input)
    {
      ghost var records, names, part := codec.records(reader.input.source.content), headers[..], [];
      SliceSnoc(records, reader.next - 1);
      rest, err, k', part := TakeRecord(values, headers, batch, k, records[1..reader.next - 1]);
      assert headers[..] == names;
      if err.Some? { StoppedCsv(reader, names, err.value, part, k'); }
    }

    /** One round of the loop over the records. */
    method NextRecord(reader: CsvReader, headers: array<string>, batch: seq<Row>, ghost k: nat)
      returns (more: bool, rest: seq<Row>, err: Option<Error>, ghost k': nat)
      requires InCsv(reader, headers[..], batch, k) && reader !in consumer.Repr && headers !in consumer.Repr
      requires reader.input !in consumer.Repr && reader.input.source !in consumer.Repr
      modifies this`rows, this`emitted, consumer.Repr, reader, reader.input, reader.input.source
      ensures headers[..] == old(headers[..]) && old(reader.next) <= reader.next
      ensures reader.next <= |codec.records(reader.input.source.content)|
      ensures more ==> reader.next > old(reader.next)
      ensures err.None? ==> InCsv(reader, headers[..], rest, k')
      ensures !more && err.None? ==>
                && reader.next == |codec.records(reader.input.source.content)|
                && codec.wellFormed(reader.input.source.content) && reader.input.Whole()
      ensures err.Some? ==> Streamed(err, Csv, reader.input)
    {
      ghost var names := headers[..];
      var record;
      record, err := FetchRecord(reader, names, batch, k);
      assert headers[..] == names;
      more, rest, k' := record.Some?, batch, k;
      if more { rest, err, k' := UseRecord(reader, record.value, headers, batch, k); }
      assert headers[..] == names;
    }

    /** The names of the columns, from the first record. */
    method UseHeader(reader: CsvReader, names: seq<string>) returns (headers: array<string>, err: Option<Error>)
      requires Valid() && emitted == [] && reader.Valid() && reader.codec == codec && reader.next == 1
      requires names == codec.records(reader.input.source.content)[0]
      ensures fresh(headers)
      ensures err.None? ==> InCsv(reader, headers[..], [], 0) && Readable(codec, Csv, reader.input.source.content)
      ensures err.Some? ==> Streamed(err, Csv, reader.input)
    {
      Look();
      headers := new string[|names|](i requires 0 <= i < |names| => names[i]);
      assert headers[..] == names;
      var ok := ValidateHeaders(codec, headers);
      if !ok {
        err := Some(InvalidHeader);
        ReaderStopped(reader, InvalidHeader, 0);
        return;
      }
      err := None;
      assert codec.records(reader.input.source.content)[1..reader.next] == [];
    }

    /** The header line. */
    method ReadHeader(reader: CsvReader) returns (headers: array<string>, err: Option<Error>)
      requires Valid() && emitted == [] && reader.Valid() && reader.codec == codec && reader.next == 0
      requires reader !in consumer.Repr && reader.input !in consumer.Repr && reader.input.source !in consumer.Repr
      modifies reader, reader.input, reader.input.source
      ensures fresh(headers)
      ensures err.None? ==> InCsv(reader, headers[..], [], 0) && Readable(codec, Csv, reader.input.source.content)
      ensures err.Some? ==> Streamed(err, Csv, reader.input)
    {
      var record;
      record, err := reader.Read();
      if record.Some? {
        headers, err := UseHeader(reader, record.value);
      } else {
        headers := new string[0];
        if err.None? { err := Some(Malformed); }
        ReaderStopped(reader, err.value, 0);
      }
    }

    /** The records after the header, as far as full batches of them go. */
    method ReadRecords(reader: CsvReader, headers: array<string>)
      returns (batch: seq<Row>, err: Option<Error>, ghost k: nat)
      requires InCsv(reader, headers[..], [], 0) && headers !in consumer.Repr
      requires reader !in consumer.Repr && reader.input !in consumer.Repr && reader.input.source !in consumer.Repr
      modifies this`rows, this`emitted, consumer.Repr, reader, reader.input, reader.input.source
      ensures err.None? ==> Collecting(batch, k, CsvRows(codec, reader.input.source.content))
      ensures err.None? ==> reader.input.Valid() && reader.input.Whole()
      ensures err.Some? ==> Streamed(err, Csv, reader.input)
    {
      ghost var content, names, records := reader.input.source.content, headers[..], codec.records(reader.input.source.content);
      var more := true;
      batch, err, k := [], None, 0;
      while more && err.None?
        invariant headers[..] == names && reader.next <= |records|
        invariant err.None? ==> InCsv(reader, names, batch, k)
        invariant !more && err.None? ==> reader.next == |records| && codec.wellFormed(content) && reader.input.Whole()
        invariant err.Some? ==> Streamed(err, Csv, reader.input)
        decreases |records| - reader.next, more
      {
        more, batch, err, k := NextRecord(reader, headers, batch, k);
      }
      assert records[1..|records|] == records[1..];
    }

    /** The rows of a CSV file with a header line. */
    method StreamCsv(input: LimitReader) returns (err: Option<Error>)
      requires Valid() && emitted == [] && input.Valid() && input.read == 0 && !input.exceeded
      requires input !in consumer.Repr && input.source !in consumer.Repr
      modifies this`rows, this`emitted, consumer.Repr, input, input.source
      ensures Streamed(err, Csv, input)
    {
      var reader := new CsvReader(input, codec);
      var headers, batch;
      ghost var k;
      headers, err := ReadHeader(reader);
      if err.Some? { return; }
      batch, err, k := ReadRecords(reader, headers);
      if err.Some? { return; }
      err := Finish(batch, k, Csv, input);
    }

    /** What a stream that ended comes down to. */
    lemma Summary(err: Option<Error>, format: Format, input: LimitReader)
      requires Streamed(err, format, input)
      ensures err.None? ==> !consumer.failed
      ensures input.exceeded ==> |input.source.content| > input.max
      ensures err.None? ==>
                Delivered(codec, format, input.source.content, batchSize, maxRows, input.max, consumer.calls,
                          ParseResult(rows, input.read, codec.digest(input.source.hashed)))
      ensures !input.source.broken ==>
                consumer.calls <= Batches(RowsWithin(codec, format, input.source.content, input.max).rows, batchSize)
      ensures err.Some? && !input.exceeded && input.Fits() ==>
                Refused(codec, format, input.source.content, batchSize, maxRows, input.max, consumer.calls, err.value)
      ensures err != Some(BadLimits) && err != Some(ChecksumMismatch)
    {
      if err.None? { Look(); }
      if input.Fits() { RowsWithinAreFirst(codec, format, input.source.content, input.max); }
    }

    method Stream(format: Format, input: LimitReader) returns (err: Option<Error>)
      requires Valid() && emitted == [] && input.Valid() && input.read == 0 && !input.exceeded
      requires input !in consumer.Repr && input.source !in consumer.Repr
      modifies this`rows, this`emitted, consumer.Repr, input, input.source
      ensures consumer.Valid() && |Flatten(consumer.calls)| <= maxRows && (err.None? ==> !consumer.failed)
      ensures input.exceeded ==> |input.source.content| > input.max
      ensures err == Some(ReadFailed) ==> input.source.broken
      ensures err == Some(ByteLimitExceeded) ==> input.exceeded
      ensures Told(err)
      ensures err != Some(BadLimits) && err != Some(ChecksumMismatch)
      ensures err.None? ==>
                Delivered(codec, format, input.source.content, batchSize, maxRows, input.max, consumer.calls,
                          ParseResult(rows, input.read, codec.digest(input.source.hashed)))
      ensures batchSize >= 1 && (!input.source.broken ==>
                consumer.calls <= Batches(RowsWithin(codec, format, input.source.content, input.max).rows, batchSize))
      ensures err.Some? && !input.exceeded && input.Fits() ==>
                Refused(codec, format, input.source.content, batchSize, maxRows, input.max, consumer.calls, err.value)
    {
      Look();
      match format {
        case Csv => err := StreamCsv(input);
        case Jsonl => err := StreamJsonl(input);
        case Unknown =>
          ValidWithin();
          err := Some(UnsupportedFormat);
      }
      Summary(err, format, input);
    }
  }

  /** What the file itself has to say about an error, when it was read completely. */
  ghost predicate Explains(e: Error, file: FileRows, maxRows: int) {
    && (e.RowLimitExceeded? ==> |file.rows| > maxRows)
    && (e.Malformed? ==> !file.ok)
  }

  /** The file can be imported at all: its column names are usable, its lines fit into the buffer. */
  ghost predicate Readable(c: Codec, format: Format, content: Bytes) {
    match format
    case Csv => c.records(content) != [] && UsableHeaders(Trimmed(c, c.records(content)[0]))
    case Jsonl => Terminated(content) ==> Short(Split(content))
    case Unknown => false
  }

  /** The errors of a streamed file, and what those of its reader and its form mean. */
  ghost predicate Blames(c: Codec, format: Format, e: Error, input: LimitReader)
    reads input, input.source
  {
    && (e.RowLimitExceeded? || e.ContextDone? || FromConsumer(e) || e.Malformed? || e.InvalidHeader?
        || e.TokenTooLong? || e.ReadFailed? || e.ByteLimitExceeded? || e.UnsupportedFormat?)
    && (e.UnsupportedFormat? ==> format.Unknown?)
    && (e.ReadFailed? ==> input.source.broken)
    && (e.ByteLimitExceeded? ==> input.exceeded)
    && (e.InvalidHeader? ==> format.Csv? && !Readable(c, format, input.source.content))
    && (e.TokenTooLong? ==> format.Jsonl? && !Short(Split(input.source.content)))
  }

  /** A successful run: the whole file, within both limits, batch by batch. */
  ghost predicate Delivered(c: Codec, format: Format, content: Bytes, batchSize: int, maxRows: int, maxBytes: int,
                            calls: seq<ParsedBatch>, result: ParseResult)
  {
    && batchSize >= 1 && Readable(c, format, content) && RowsOf(c, format, content).ok
    && |content| <= maxBytes && |RowsOf(c, format, content).rows| <= maxRows
    && calls == Batches(RowsOf(c, format, content).rows, batchSize)
    && result == ParseResult(|RowsOf(c, format, content).rows|, |content|, c.digest(content))
  }

  /** A failed run: what was called are the first batches of the file, and an error that is neither
      the provider's nor the context's is the file's own fault. */
  ghost predicate Refused(c: Codec, format: Format, content: Bytes, batchSize: int, maxRows: int, maxBytes: int,
                          calls: seq<ParsedBatch>, e: Error)
  {
    && batchSize >= 1 && calls <= Batches(RowsOf(c, format, content).rows, batchSize)
    && (FromConsumer(e) || e.ContextDone?
        || (e.RowLimitExceeded? && |RowsOf(c, format, content).rows| > maxRows)
        || (e.Malformed? && !RowsOf(c, format, content).ok)
        || (e.InvalidHeader? && format.Csv? && !Readable(c, format, content))
        || (e.TokenTooLong? && format.Jsonl? && !Short(Split(content)))
        || (e.UnsupportedFormat? && format.Unknown?))
  }

  /** Stream the rows of a file to the consumer. */
  method StreamRows(c: Codec, source: Source, format: Format, batchSize: int, maxRows: int, maxBytes: int, consumer: Consumer)
    returns (result: ParseResult, err: Option<Error>)
    requires source.Valid() && source.pos == 0 && !source.broken && source !in consumer.Repr
    requires consumer.Valid() && !consumer.failed && consumer.calls == []
    modifies consumer.Repr, source
    ensures consumer.Valid()
    ensures err == Some(BadLimits) <==> batchSize < 1 || maxRows < 1 || maxBytes < 1
    ensures err == Some(BadLimits) ==> consumer.calls == []
    ensures err.None? ==>
              && !consumer.failed
              && Delivered(c, format, source.content, batchSize, maxRows, maxBytes, consumer.calls, result)
    ensures err == Some(ByteLimitExceeded) ==> |source.content| > maxBytes
    ensures err == Some(ReadFailed) ==> source.broken
    ensures err != Some(ChecksumMismatch)
    ensures err.Some? && FromConsumer(err.value) ==> consumer.failed && consumer.fault == err
    ensures err.Some? && err != Some(BadLimits) ==> |Flatten(consumer.calls)| <= maxRows
    ensures err != Some(BadLimits) && !source.broken ==>
              consumer.calls <= Batches(RowsWithin(c, format, source.content, maxBytes).rows, batchSize)
    ensures err.Some? && err != Some(BadLimits) && |source.content| <= maxBytes && !source.broken ==>
              Refused(c, format, source.content, batchSize, maxRows, maxBytes, consumer.calls, err.value)
  {
    result := ParseResult(0, 0, EMPTY);
    if batchSize < 1 || maxRows < 1 || maxBytes < 1 { return result, Some(BadLimits); }
    var limited := new LimitReader(source, maxBytes);
    var stream := new RowStream(consumer, c, batchSize, maxRows);
    err := stream.Stream(format, limited);
    if limited.exceeded { return result, Some(ByteLimitExceeded); }
    if err.Some? { return; }
    result := ParseResult(stream.rows, limited.read, c.digest(source.hashed));
  }

  lemma SliceSnoc<T>(s: seq<T>, n: nat)
    requires 1 <= n < |s|
    ensures s[1..n + 1] == s[1..n] + [s[n]]
  {
  }

  lemma NextMultiple(k: nat, size: nat)
    ensures k * size + size == (k + 1) * size
  {
  }

  /** What handing over the next rows adds to the batches. */
  lemma NextBatch(emitted: seq<Row>, values: seq<Row>, k: nat, size: nat)
    requires size > 0 && |emitted| == k * size && 0 < |values| <= size
    ensures |Batches(emitted, size)| == k == |emitted| / size
    ensures Batches(emitted + values, size)
         == Batches(emitted, size) + [ParsedBatch(|emitted| / size + 1, |emitted| + 2, values)]
    ensures Flatten(Batches(emitted, size)) == emitted
    ensures Flatten(Batches(emitted + values, size)) == emitted + values
  {
    FullCut(emitted, k, size);
    NumberFromCount(k, size);
    BatchesSnoc(emitted, values, k, size);
    FlattenSnoc(Batches(emitted, size), ParsedBatch(k + 1, k * size + 2, values));
  }
}
