/** What a file says, apart from how it is read: rows of a JSON Lines file, rows of a CSV file, and
    the normalized file written from rows. */
module Files {
  import opened Rows
  import opened Jobs
  import opened Lines
  import opened Providers

  /** The library routines whose inner workings are left abstract. `encode` and `decode` are JSON
      marshalling of one row; `blank` tells whether a line is white space; `records` are the records
      of a CSV file up to the first malformed one, `wellFormed` whether there is none; `header`
      and `report` are the first and the other CSV records of the error report; `digest` is the checksum,
    and `fold` maps checksums that differ in letter case only to the same text. */
  datatype Codec = Codec(
    encode: Row -> Option<Bytes>,
    decode: Bytes -> Option<Row>,
    blank: Bytes -> bool,
    trim: string -> string,
    records: Bytes -> seq<seq<string>>,
    wellFormed: Bytes -> bool,
    header: Bytes,
    report: Issue -> Bytes,
    digest: Bytes -> Text,
    fold: Text -> Text)

  /** An encoded row is one line that is not blank, and decodes to the row. */
  ghost predicate Lawful(c: Codec) {
    forall row {:trigger c.encode(row)} :: c.encode(row).Some? ==>
      && OneLine(c.encode(row).value) && DropReturn(c.encode(row).value) == c.encode(row).value
      && !c.blank(c.encode(row).value) && c.decode(c.encode(row).value) == Some(row)
  }

  /** Rows up to the first line that cannot be read, and whether there is none. */
  datatype FileRows = FileRows(rows: seq<Row>, ok: bool)

  function DecodeLine(c: Codec, before: FileRows, line: Bytes): FileRows {
    var token := DropReturn(line);
    if !before.ok || c.blank(token) then before
    else
      match c.decode(token)
      case Some(row) => FileRows(before.rows + [row], true)
      case None => FileRows(before.rows, false)
  }

  function DecodeLines(c: Codec, lines: seq<Bytes>): FileRows {
    if lines == [] then FileRows([], true)
    else DecodeLine(c, DecodeLines(c, lines[..|lines| - 1]), lines[|lines| - 1])
  }

  /** The rows of a JSON Lines file. */
  function JsonRows(c: Codec, content: Bytes): FileRows { DecodeLines(c, Split(content)) }

  lemma DecodeSnoc(c: Codec, lines: seq<Bytes>, line: Bytes)
    ensures DecodeLines(c, lines + [line]) == DecodeLine(c, DecodeLines(c, lines), line)
  {
    assert (lines + [line])[..|lines|] == lines;
  }

  /** The rows of more lines start with the rows of the first lines. */
  lemma {:induction false} DecodePrefix(c: Codec, lines: seq<Bytes>, more: seq<Bytes>)
    ensures DecodeLines(c, lines).rows <= DecodeLines(c, lines + more).rows
    ensures DecodeLines(c, lines + more).ok ==> DecodeLines(c, lines).ok
  {
    if more == [] {
      assert lines + more == lines;
    } else {
      DecodePrefix(c, lines, more[..|more| - 1]);
      assert lines + more == lines + more[..|more| - 1] + [more[|more| - 1]];
      DecodeSnoc(c, lines + more[..|more| - 1], more[|more| - 1]);
    }
  }

  /** Whole lines at the start of a file give the first rows of the file. */
  lemma JsonPrefix(c: Codec, content: Bytes, n: nat)
    requires n <= |content| && (Terminated(content[..n]) || n == |content|)
    ensures JsonRows(c, content[..n]).rows <= JsonRows(c, content).rows
    ensures JsonRows(c, content).ok ==> JsonRows(c, content[..n]).ok
  {
    if n == |content| {
      assert content[..n] == content;
    } else {
      assert content == content[..n] + content[n..];
      SplitConcat(content[..n], content[n..]);
      DecodePrefix(c, Split(content[..n]), Split(content[n..]));
    }
  }

  // ---- the normalized file ----

  predicate Encodable(c: Codec, rows: seq<Row>) {
    forall i :: 0 <= i < |rows| ==> c.encode(rows[i]).Some?
  }

  /** One encoded row to a line. */
  function Encoded(c: Codec, rows: seq<Row>): Bytes
    requires Encodable(c, rows)
  {
    if rows == [] then []
    else Encoded(c, rows[..|rows| - 1]) + (c.encode(rows[|rows| - 1]).value + [NEWLINE])
  }

  lemma EncodedSnoc(c: Codec, rows: seq<Row>, row: Row)
    requires Encodable(c, rows) && c.encode(row).Some?
    ensures Encodable(c, rows + [row])
    ensures Encoded(c, rows + [row]) == Encoded(c, rows) + (c.encode(row).value + [NEWLINE])
  {
    assert (rows + [row])[..|rows|] == rows;
    forall i | 0 <= i < |rows + [row]| ensures c.encode((rows + [row])[i]).Some? {
      if i < |rows| { assert (rows + [row])[i] == rows[i]; }
    }
  }

  /** Reading back: the lines of the normalized file are the encoded rows, one by one, and they
      decode to the rows that were written, in order. */
  lemma {:induction false} ReadBack(c: Codec, rows: seq<Row>)
    requires Lawful(c) && Encodable(c, rows)
    ensures Terminated(Encoded(c, rows))
    ensures |Split(Encoded(c, rows))| == |rows|
    ensures forall i :: 0 <= i < |rows| ==> Split(Encoded(c, rows))[i] == c.encode(rows[i]).value
    ensures JsonRows(c, Encoded(c, rows)) == FileRows(rows, true)
  {
    if rows != [] {
      var init, last := rows[..|rows| - 1], rows[|rows| - 1];
      ReadBack(c, init);
      var line := c.encode(last).value;
      SplitLine(Encoded(c, init), line);
      DecodeSnoc(c, Split(Encoded(c, init)), line);
      assert init + [last] == rows;
    }
  }

  // ---- CSV ----

  function Trimmed(c: Codec, values: seq<string>): seq<string> {
    seq(|values|, i requires 0 <= i < |values| => c.trim(values[i]))
  }

  /** Column names are usable when there are some, none is empty and no two are the same. */
  ghost predicate UsableHeaders(headers: seq<string>) {
    && headers != []
    && (forall i :: 0 <= i < |headers| ==> headers[i] != "")
    && (forall i, j :: 0 <= i < j < |headers| ==> headers[i] != headers[j])
  }

  /** The row of one record: each column name with the value at its position. */
  function Zip(headers: seq<string>, values: seq<string>): Row
    requires |values| == |headers|
  {
    if headers == [] then map[]
    else Zip(headers[..|headers| - 1], values[..|headers| - 1])[headers[|headers| - 1] := Str(values[|headers| - 1])]
  }

  /** With usable column names every value of the record has its own column. */
  lemma {:induction false} ZipIsFaithful(headers: seq<string>, values: seq<string>)
    requires |values| == |headers|
    requires forall i, j :: 0 <= i < j < |headers| ==> headers[i] != headers[j]
    ensures forall name :: name in Zip(headers, values) <==> name in headers
    ensures forall i :: 0 <= i < |headers| ==>
              headers[i] in Zip(headers, values) && Zip(headers, values)[headers[i]] == Str(values[i])
  {
    if headers != [] {
      var n := |headers| - 1;
      ZipIsFaithful(headers[..n], values[..n]);
      assert headers == headers[..n] + [headers[n]];
      forall i | 0 <= i < |headers|
        ensures headers[i] in Zip(headers, values) && Zip(headers, values)[headers[i]] == Str(values[i])
      {
        if i < n { assert headers[..n][i] == headers[i] && values[..n][i] == values[i]; }
      }
    }
  }

  /** Rows of records with the right number of columns, up to the first that has not. */
  function ZipRecords(headers: seq<string>, records: seq<seq<string>>): FileRows {
    if records == [] then FileRows([], true)
    else
      var before, values := ZipRecords(headers, records[..|records| - 1]), records[|records| - 1];
      if !before.ok then before
      else if |values| != |headers| then FileRows(before.rows, false)
      else FileRows(before.rows + [Zip(headers, values)], true)
  }

  /** The rows of a CSV file with usable headers. */
  function CsvRows(c: Codec, content: Bytes): FileRows {
    var records := c.records(content);
    if records == [] then FileRows([], false)
    else
      var file := ZipRecords(Trimmed(c, records[0]), records[1..]);
      FileRows(file.rows, file.ok && c.wellFormed(content))
  }

  lemma ZipSnoc(headers: seq<string>, records: seq<seq<string>>, n: nat)
    requires n < |records|
    ensures var before := ZipRecords(headers, records[..n]);
      ZipRecords(headers, records[..n + 1]) ==
        if !before.ok then before
        else if |records[n]| != |headers| then FileRows(before.rows, false)
        else FileRows(before.rows + [Zip(headers, records[n])], true)
  {
    assert records[..n + 1][..n] == records[..n];
  }

  lemma {:induction false} ZipPrefix(headers: seq<string>, records: seq<seq<string>>, n: nat)
    requires n <= |records|
    ensures ZipRecords(headers, records[..n]).rows <= ZipRecords(headers, records).rows
    ensures ZipRecords(headers, records).ok ==> ZipRecords(headers, records[..n]).ok
    decreases |records| - n
  {
    if n < |records| {
      ZipPrefix(headers, records, n + 1);
      ZipSnoc(headers, records, n);
    } else {
      assert records[..n] == records;
    }
  }

  /** The first records after the header give the first rows of the file. */
  lemma CsvPrefix(c: Codec, content: Bytes, n: nat)
    requires 1 <= n <= |c.records(content)|
    ensures var records := c.records(content);
      var read, file := ZipRecords(Trimmed(c, records[0]), records[1..n]), CsvRows(c, content);
      read.rows <= file.rows && (file.ok ==> read.ok)
  {
    var records := c.records(content);
    assert records[1..n] == records[1..][..n - 1];
    ZipPrefix(Trimmed(c, records[0]), records[1..], n - 1);
  }
}
