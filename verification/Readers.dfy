/** Reading an object under a byte limit, one arbitrarily short read after another. */
module Readers {
  import opened Jobs
  import opened Lines

  datatype ReadError = EndOfFile | Broken | ByteLimit | LineTooLong

  /** The object being read, hashed on the way. */
  class Source {
    const content: Bytes
    var pos: nat
    var hashed: Bytes
    var broken: bool           // a read has failed, or a reader has given up

    ghost predicate Valid()
      reads this
    {
      pos <= |content| && hashed == content[..pos]
    }

    constructor (content: Bytes)
      ensures Valid() && this.content == content && pos == 0 && !broken
    {
      this.content, pos, hashed, broken := content, 0, [], false;
    }

    /** Any number of the next bytes, up to `want`, even none at all; the end is reported at the end only. */
    method Read(want: nat) returns (chunk: Bytes, err: Option<ReadError>)
      requires Valid()
      modifies this
      ensures Valid() && pos == old(pos) + |chunk| && |chunk| <= want
      ensures chunk == content[old(pos)..pos]
      ensures err.Some? ==> err.value == EndOfFile || err.value == Broken
      ensures err == Some(EndOfFile) ==> pos == |content|
      ensures broken == (old(broken) || err == Some(Broken))
    {
      var n: nat :| n <= want && pos + n <= |content|;
      chunk := content[pos..pos + n];
      assert content[..pos + n] == content[..pos] + chunk;
      pos, hashed := pos + n, hashed + chunk;
      var fails: bool := *;
      var ends: bool := *;
      if fails {
        err, broken := Some(Broken), true;
      } else {
        err := if pos == |content| && ends then Some(EndOfFile) else None;
      }
    }
  }

  /** What a reader under a limit can see of a file. */
  function Visible(content: Bytes, max: int): (seen: Bytes)
    requires max >= 0
    ensures seen <= content && |seen| <= max && (|seen| == |content| || |seen| == max)
  {
    if |content| <= max then content else content[..max]
  }

  class LimitReader {
    const source: Source
    ghost const max: int
    var remaining: int
    var read: int
    var exceeded: bool

    /** What has been delivered is the first `read` bytes, never more than `max`; the flag is raised
        exactly when the source has been seen to hold one byte more. */
    ghost predicate Valid()
      reads this, source
    {
      && source.Valid()
      && 0 <= remaining && 0 <= read && read + remaining == max
      && read <= source.pos
      && (exceeded <==> read < source.pos)
      && (exceeded ==> read == max)
    }

    constructor (source: Source, max: int)
      requires source.Valid() && source.pos == 0 && max >= 1
      ensures Valid() && this.source == source && this.max == max && read == 0 && !exceeded
    {
      this.source, this.max, remaining, read, exceeded := source, max, max, 0, false;
    }

    method Read(want: nat) returns (chunk: Bytes, err: Option<ReadError>)
      requires Valid()
      modifies this, source
      ensures Valid()
      ensures read == old(read) + |chunk| && |chunk| <= want
      ensures chunk == source.content[old(read)..read]
      ensures old(exceeded) ==> exceeded
      ensures err == Some(ByteLimit) ==> exceeded
      ensures exceeded && !old(exceeded) ==> err == Some(ByteLimit)
      ensures err.Some? ==> err.value == EndOfFile || err.value == Broken || err.value == ByteLimit
      ensures err == Some(EndOfFile) ==> source.pos == |source.content|
      ensures err == Some(Broken) ==> source.broken
      ensures old(source.broken) ==> source.broken
    {
      if remaining <= 0 {
        var one;
        one, err := source.Read(1);
        if |one| > 0 {
          exceeded := true;
          return [], Some(ByteLimit);
        }
        return [], err;
      }
      chunk, err := source.Read(if want > remaining then remaining else want);
      remaining := remaining - |chunk|;
      read := read + |chunk|;
    }

    /** Read until there is something to return. A buffered reader gives up after too many reads in a row
        that have returned nothing and no error. */
    method Pull(want: nat, tries: nat) returns (chunk: Bytes, err: Option<ReadError>)
      requires Valid() && want > 0
      modifies this, source
      ensures Valid()
      ensures read == old(read) + |chunk| && |chunk| <= want
      ensures chunk == source.content[old(read)..read]
      ensures old(exceeded) ==> exceeded
      ensures err == Some(ByteLimit) ==> exceeded
      ensures exceeded && !old(exceeded) ==> err == Some(ByteLimit)
      ensures err.Some? ==> err.value == EndOfFile || err.value == Broken || err.value == ByteLimit
      ensures err == Some(EndOfFile) ==> source.pos == |source.content|
      ensures err == Some(Broken) ==> source.broken
      ensures old(source.broken) ==> source.broken
      ensures err.None? ==> chunk != []
    {
      var empty := 0;
      while empty < tries
        invariant Valid() && empty <= tries && read == old(read) && exceeded == old(exceeded)
        invariant old(source.broken) ==> source.broken
      {
        chunk, err := Read(want);
        if err.Some? || chunk != [] { return; }
        empty := empty + 1;
      }
      source.broken := true;
      chunk, err := [], Some(Broken);
    }

    /** The source has been delivered and hashed completely. */
    ghost predicate Whole()
      reads this, source
    {
      && !exceeded && read == source.pos == |source.content| && source.hashed == source.content
    }

    /** The file is within the limit and its storage has not failed. */
    ghost predicate Fits()
      reads this, source
    {
      |source.content| <= max && !source.broken
    }

    /** A reader that has met the end of the stream knows whether the file fits: the flag is raised
        exactly for files over the limit, and otherwise everything was delivered and hashed. */
    lemma EndMeansWhole(err: ReadError)
      requires Valid()
      requires err == EndOfFile ==> source.pos == |source.content|
      requires err == ByteLimit ==> exceeded
      requires err == EndOfFile || err == ByteLimit
      ensures exceeded <==> |source.content| > max
      ensures !exceeded ==> read == |source.content| && source.hashed == source.content
      ensures exceeded ==> read == max
    {
    }
  }

  const MAX_TOKEN := 16 * 1024 * 1024

  /** Every line fits into the scanner's buffer. */
  ghost predicate Short(lines: seq<Bytes>) {
    forall i :: 0 <= i < |lines| ==> |lines[i]| < MAX_TOKEN
  }

  /** Splits the limited stream into lines, reading ahead by arbitrary amounts. */
  class Scanner {
    const input: LimitReader
    var buffer: Bytes
    var err: Option<ReadError>
    ghost var start: nat       // bytes already turned into lines
    ghost var lines: seq<Bytes>

    ghost predicate Valid()
      reads this, input, input.source
    {
      && input.Valid()
      && start <= input.read
      && lines == Split(input.source.content[..start])
      && (Terminated(input.source.content[..start]) ==> Short(lines))
      && buffer == input.source.content[start..input.read] && |buffer| <= MAX_TOKEN
      && (err == Some(EndOfFile) ==> input.source.pos == |input.source.content|)
      && (err == Some(ByteLimit) ==> input.exceeded)
      && (input.exceeded ==> err == Some(ByteLimit))
      && (err == Some(Broken) ==> input.source.broken)
    }

    /** Whole lines only, or everything there is. */
    ghost predicate AtLine()
      reads this, input, input.source
      requires Valid()
    {
      Terminated(input.source.content[..start]) || (err.Some? && err != Some(LineTooLong) && start == input.read)
    }

    /** There is no next line: everything delivered has become lines, or the next one is too long. */
    ghost predicate Ended()
      reads this, input, input.source
      requires Valid()
    {
      && err.Some?
      && (err != Some(LineTooLong) ==> start == input.read)
      && (err == Some(LineTooLong) ==>
            && start + MAX_TOKEN <= input.read && Terminated(input.source.content[..start])
            && OneLine(input.source.content[start..start + MAX_TOKEN]))
    }

    /** What has become lines is whole lines of the file, or all of it that can be seen. */
    lemma WholeLines()
      requires Valid() && AtLine() && !input.source.broken && err != Some(LineTooLong)
      ensures start <= |Visible(input.source.content, input.max)|
      ensures Terminated(input.source.content[..start]) || start == |Visible(input.source.content, input.max)|
    {
      if err.Some? { match err.value case EndOfFile => case Broken => case ByteLimit => case LineTooLong => }
    }

    constructor (input: LimitReader)
      requires input.Valid() && input.read == 0 && !input.exceeded
      ensures Valid() && AtLine() && this.input == input && start == 0 && lines == [] && err.None?
    {
      this.input, buffer, err, start, lines := input, [], None, 0, [];
    }

    /** Read ahead, by any amount that fits the buffer. */
    method Fill()
      requires Valid() && err.None? && |buffer| < MAX_TOKEN
      modifies this`buffer, this`err, input, input.source
      ensures Valid() && start == old(start) && lines == old(lines) && old(input.read) <= input.read
      ensures err.None? ==> input.read > old(input.read)
      ensures err != Some(LineTooLong)
    {
      var want: nat :| 1 <= want <= MAX_TOKEN - |buffer|;
      var chunk, e := input.Pull(want, 101);
      assert input.source.content[start..input.read] == buffer + chunk;
      buffer, err := buffer + chunk, e;
    }

    /** Turn the first `i` buffered bytes, up to a newline, into a line. */
    method TakeLine(i: nat) returns (line: Bytes)
      requires Valid() && Terminated(input.source.content[..start]) && i == LineEnd(buffer) < |buffer|
      modifies this`buffer, this`start, this`lines
      ensures Valid() && start == old(start) + i + 1 && Terminated(input.source.content[..start])
      ensures lines == old(lines) + [line]
    {
      LineTaken(input.source.content, start, input.read, i);
      line := buffer[..i];
      assert buffer[i + 1..] == input.source.content[start + i + 1..input.read];
      buffer, start, lines := buffer[i + 1..], start + i + 1, lines + [line];
    }

    /** Turn what is left into the last line. */
    method TakeRest() returns (line: Bytes)
      requires Valid() && Terminated(input.source.content[..start]) && 0 < |buffer| == LineEnd(buffer)
      modifies this`buffer, this`start, this`lines
      ensures Valid() && start == input.read > old(start) && !Terminated(input.source.content[..start])
      ensures lines == old(lines) + [line]
    {
      RestTaken(input.source.content, start, input.read);
      line := buffer;
      assert buffer[|buffer| - 1] == input.source.content[input.read - 1];
      buffer, start, lines := [], input.read, lines + [line];
    }

    /** The next line, or the end: then either everything delivered has become lines, or the next
        line does not fit into the buffer. */
    method Scan() returns (token: Option<Bytes>, ghost line: Bytes)
      requires Valid() && AtLine() && err != Some(LineTooLong)
      modifies this, input, input.source
      ensures Valid() && AtLine() && old(input.read) <= input.read && old(start) <= start
      ensures token.Some? ==>
                && err != Some(LineTooLong) && old(start) < start
                && token.value == DropReturn(line) && lines == old(lines) + [line]
      ensures token.None? ==> Ended() && start == old(start) && lines == old(lines)
    {
      line := [];
      while true
        invariant Valid() && AtLine() && start == old(start) && lines == old(lines) && old(input.read) <= input.read
        invariant err != Some(LineTooLong)
        decreases |input.source.content| - input.read, err.None?
      {
        var i := LineEnd(buffer);
        if i < |buffer| {
          var taken := TakeLine(i);
          return Some(DropReturn(taken)), taken;
        }
        if err.Some? {
          if |buffer| == 0 { return None, []; }
          var taken := TakeRest();
          return Some(DropReturn(taken)), taken;
        }
        if |buffer| >= MAX_TOKEN {
          assert input.source.content[start..start + MAX_TOKEN] == buffer[..MAX_TOKEN];
          err := Some(LineTooLong);
          return None, [];
        }
        Fill();
      }
    }
  }

  lemma LineTaken(content: Bytes, start: nat, read: nat, i: nat)
    requires start <= read <= |content| && i < read - start && Terminated(content[..start])
    requires LineEnd(content[start..read]) == i
    ensures Split(content[..start + i + 1]) == Split(content[..start]) + [content[start..read][..i]]
    ensures Terminated(content[..start + i + 1])
  {
    var line := content[start..read][..i];
    assert content[..start + i + 1] == content[..start] + (line + [NEWLINE]);
    SplitLine(content[..start], line);
  }

  lemma RestTaken(content: Bytes, start: nat, read: nat)
    requires start < read <= |content| && Terminated(content[..start]) && LineEnd(content[start..read]) == read - start
    ensures Split(content[..read]) == Split(content[..start]) + [content[start..read]]
  {
    var line := content[start..read];
    assert content[..read] == content[..start] + line;
    SplitLast(content[..start], line);
  }
}
