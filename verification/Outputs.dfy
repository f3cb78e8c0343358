/** The two files a validation writes, each under a byte limit. */
module Outputs {
  import opened Jobs
  import opened Lines

  datatype WriteError = OutputLimit | DiskFailed

  class BoundedWriter {
    const limit: int
    var content: Bytes         // the temporary file behind the writer
    var written: int

    ghost predicate Valid()
      reads this
    {
      |content| == written && (content == [] || written <= limit)
    }

    constructor (limit: int)
      ensures Valid() && this.limit == limit && content == []
    {
      this.limit, content, written := limit, [], 0;
    }

    /** All of the value or, when it would pass the limit, none of it; only the file itself may stop
        in between. */
    method Write(value: Bytes) returns (n: int, err: Option<WriteError>)
      requires Valid()
      modifies this
      ensures Valid() && 0 <= n <= |value| && content == old(content) + value[..n]
      ensures err.None? ==> n == |value|
      ensures err == Some(OutputLimit) <==> |old(content)| + |value| > limit
      ensures err == Some(OutputLimit) ==> n == 0
    {
      if |value| > limit - written {
        return 0, Some(OutputLimit);
      }
      n, err := |value|, None;
      var fails: bool := *;
      if fails {
        n :| 0 <= n <= |value|;
        err := Some(DiskFailed);
      }
      content, written := content + value[..n], written + n;
    }
  }

  /** The error report: records go through a buffer that empties itself at any time, and a failure
      to empty it is kept until the end. */
  class ReportWriter {
    const out: BoundedWriter
    var pending: Bytes
    var err: Option<WriteError>
    ghost var all: Bytes       // every record handed over so far

    ghost predicate Valid()
      reads this, out
    {
      && out.Valid()
      && (err.None? ==> all == out.content + pending)
      && (err == Some(OutputLimit) ==> |all| > out.limit)
      && out.content <= all
    }

    constructor (out: BoundedWriter)
      requires out.Valid() && out.content == []
      ensures Valid() && this.out == out && all == [] && err.None?
    {
      this.out, pending, err, all := out, [], None, [];
    }

    method Empty(k: nat)
      requires Valid() && err.None? && k <= |pending|
      modifies this`pending, this`err, out
      ensures Valid() && (err.None? ==> pending == old(pending)[k..])
    {
      var n;
      assert all == out.content + pending[..k] + pending[k..];
      n, err := out.Write(pending[..k]);
      assert pending[..k][..n] == pending[..n];
      assert all == old(out.content) + pending[..n] + pending[n..];
      if err.None? { pending := pending[k..]; }
    }

    method Write(record: Bytes)
      requires Valid()
      modifies this, out
      ensures Valid() && all == old(all) + record
      ensures old(err).Some? ==> err == old(err)
    {
      all := all + record;
      if err.Some? { return; }
      pending := pending + record;
      var k: nat :| k <= |pending|;
      if k > 0 { Empty(k); }
    }

    /** After flushing, no error means that the file holds every record; the limit is reported only
        for a report that is too long, and a report that is too long is always reported. */
    method Flush()
      requires Valid()
      modifies this`pending, this`err, out
      ensures Valid() && (old(err).Some? ==> err == old(err))
      ensures err.None? ==> out.content == all && (all == [] || |all| <= out.limit)
    {
      if err.None? && pending != [] { Empty(|pending|); }
    }
  }
}
