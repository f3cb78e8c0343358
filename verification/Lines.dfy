/** Bytes and lines: what a file of newline-separated records contains. */
module Lines {
  type byte = x: int | 0 <= x < 256
  type Bytes = seq<byte>

  const NEWLINE: byte := 10
  const RETURN: byte := 13

  /** Position of the first newline, or the length. */
  function LineEnd(bs: Bytes): (i: nat)
    ensures i <= |bs|
    ensures forall j :: 0 <= j < i ==> bs[j] != NEWLINE
    ensures i < |bs| ==> bs[i] == NEWLINE
  {
    if bs == [] || bs[0] == NEWLINE then 0 else 1 + LineEnd(bs[1..])
  }

  predicate OneLine(bs: Bytes) {
    forall j :: 0 <= j < |bs| ==> bs[j] != NEWLINE
  }

  /** A line as it is handed on: without a carriage return at its end. */
  function DropReturn(line: Bytes): Bytes {
    if line != [] && line[|line| - 1] == RETURN then line[..|line| - 1] else line
  }

  /** The complete lines of a prefix of a file, and what has been read of the line after them. */
  datatype Pieces = Pieces(lines: seq<Bytes>, rest: Bytes)

  function Cut(bs: Bytes): Pieces {
    if bs == [] then Pieces([], [])
    else
      var p, b := Cut(bs[..|bs| - 1]), bs[|bs| - 1];
      if b == NEWLINE then Pieces(p.lines + [p.rest], []) else Pieces(p.lines, p.rest + [b])
  }

  /** The lines of a file; a last line without newline counts, an empty one does not. */
  function Split(bs: Bytes): seq<Bytes> {
    var p := Cut(bs);
    if p.rest == [] then p.lines else p.lines + [p.rest]
  }

  /** Empty, or ending in a newline. */
  predicate Terminated(bs: Bytes) {
    bs == [] || bs[|bs| - 1] == NEWLINE
  }

  lemma CutTerminated(bs: Bytes)
    requires Terminated(bs)
    ensures Cut(bs).rest == [] && Split(bs) == Cut(bs).lines
  {
  }

  lemma CutSnoc(bs: Bytes, b: byte)
    ensures Cut(bs + [b]) == if b == NEWLINE then Pieces(Cut(bs).lines + [Cut(bs).rest], [])
                             else Pieces(Cut(bs).lines, Cut(bs).rest + [b])
  {
    assert (bs + [b])[..|bs|] == bs;
  }

  /** Whole lines followed by anything: the lines come first. */
  lemma {:induction false} CutConcat(a: Bytes, b: Bytes)
    requires Terminated(a)
    ensures Cut(a + b) == Pieces(Split(a) + Cut(b).lines, Cut(b).rest)
  {
    CutTerminated(a);
    if b == [] {
      assert a + b == a;
    } else {
      var init, last := b[..|b| - 1], b[|b| - 1];
      assert a + b == (a + init) + [last] && b == init + [last];
      CutConcat(a, init);
      CutSnoc(a + init, last);
      CutSnoc(init, last);
    }
  }

  lemma SplitConcat(a: Bytes, b: Bytes)
    requires Terminated(a)
    ensures Split(a + b) == Split(a) + Split(b)
  {
    CutConcat(a, b);
  }

  lemma {:induction false} CutOneLine(line: Bytes)
    requires OneLine(line)
    ensures Cut(line) == Pieces([], line)
  {
    if line != [] {
      CutOneLine(line[..|line| - 1]);
      assert line == line[..|line| - 1] + [line[|line| - 1]];
    }
  }

  /** One more complete line. */
  lemma SplitLine(bs: Bytes, line: Bytes)
    requires Terminated(bs) && OneLine(line)
    ensures Split(bs + (line + [NEWLINE])) == Split(bs) + [line]
    ensures Terminated(bs + (line + [NEWLINE]))
  {
    CutConcat(bs, line + [NEWLINE]);
    CutOneLine(line);
    CutSnoc(line, NEWLINE);
  }

  /** A last line without newline. */
  lemma SplitLast(bs: Bytes, line: Bytes)
    requires Terminated(bs) && OneLine(line) && line != []
    ensures Split(bs + line) == Split(bs) + [line]
  {
    CutConcat(bs, line);
    CutOneLine(line);
  }

  /** A stretch of `n` bytes without newline at the start of a line lies in a line at least that long. */
  lemma {:induction false} LongLine(stretch: Bytes, tail: Bytes)
    requires OneLine(stretch)
    ensures var p := Cut(stretch + tail);
      if p.lines == [] then stretch <= p.rest else stretch <= p.lines[0]
  {
    if tail == [] {
      assert stretch + tail == stretch;
      CutOneLine(stretch);
    } else {
      LongLine(stretch, tail[..|tail| - 1]);
      assert stretch + tail == stretch + tail[..|tail| - 1] + [tail[|tail| - 1]];
      CutSnoc(stretch + tail[..|tail| - 1], tail[|tail| - 1]);
    }
  }

  lemma LongLineOf(content: Bytes, start: nat, n: nat)
    requires 0 < n && start + n <= |content| && Terminated(content[..start]) && OneLine(content[start..start + n])
    ensures exists i :: 0 <= i < |Split(content)| && |Split(content)[i]| >= n
  {
    var stretch, tail := content[start..start + n], content[start + n..];
    assert content == content[..start] + (stretch + tail);
    SplitConcat(content[..start], stretch + tail);
    LongLine(stretch, tail);
    assert |Split(stretch + tail)[0]| >= n;
    assert Split(content)[|Split(content[..start])|] == Split(stretch + tail)[0];
  }
}
