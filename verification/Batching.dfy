/** Cutting a sequence of rows into numbered batches. */
module Batching {
  import opened Rows

  /** `first` is the number of the first row, counted from 2: its line in a file whose line 1 is a header.
      JSON Lines files have no header, but their rows are counted in the same way. */
  datatype ParsedBatch = ParsedBatch(number: int, first: int, rows: seq<Row>)

  /** How many batches are full before the last one. */
  function LastIndex(n: nat, size: nat): (k: nat)
    requires n > 0 && size > 0
    ensures k * size < n <= (k + 1) * size
  {
    (n - 1) / size
  }

  /** The batches of `rows`: all full but the last. */
  function Batches(rows: seq<Row>, size: nat): seq<ParsedBatch>
    requires size > 0
    decreases |rows|
  {
    if rows == [] then []
    else
      var k := LastIndex(|rows|, size);
      Batches(rows[..k * size], size) + [ParsedBatch(k + 1, k * size + 2, rows[k * size..])]
  }

  function Flatten(calls: seq<ParsedBatch>): seq<Row> {
    if calls == [] then [] else Flatten(calls[..|calls| - 1]) + calls[|calls| - 1].rows
  }

  lemma FlattenSnoc(calls: seq<ParsedBatch>, b: ParsedBatch)
    ensures Flatten(calls + [b]) == Flatten(calls) + b.rows
  {
    assert (calls + [b])[..|calls|] == calls;
  }

  lemma QuotientUnique(k: nat, k': nat, n: nat, size: nat)
    requires size > 0 && k * size < n <= (k + 1) * size && k' * size < n <= (k' + 1) * size
    ensures k == k'
  {
    if k < k' {
      MulMonotone(k + 1, k', size);
    } else if k' < k {
      MulMonotone(k' + 1, k, size);
    }
  }

  lemma MulMonotone(a: nat, b: nat, size: nat)
    requires a <= b
    ensures a * size <= b * size
  {
  }

  /** After `k` full batches, up to `size` more rows make one more batch. */
  lemma BatchesSnoc(rows: seq<Row>, more: seq<Row>, k: nat, size: nat)
    requires size > 0 && |rows| == k * size && 0 < |more| <= size
    ensures Batches(rows + more, size) == Batches(rows, size) + [ParsedBatch(k + 1, k * size + 2, more)]
  {
    var all := rows + more;
    QuotientUnique(LastIndex(|all|, size), k, |all|, size);
    assert all[..k * size] == rows && all[k * size..] == more;
  }

  /** The counter arithmetic of the emitter: the batch number follows from the rows counted so far. */
  lemma NumberFromCount(k: nat, size: nat)
    requires size > 0
    ensures k * size / size == k
  {
    var n := k * size;
    var q := n / size;
    assert q * size <= n < q * size + size;
    if q < k { MulMonotone(q + 1, k, size); } else if k < q { MulMonotone(k + 1, q, size); }
  }

  /** The shape of the batch at position `i`. */
  predicate Shaped(b: ParsedBatch, i: nat, last: bool, size: nat) {
    b.number == i + 1 && b.first == i * size + 2 && 0 < |b.rows| <= size && (!last ==> |b.rows| == size)
  }

  /** The shape of a cutting: batches in their places, all but the last full. */
  ghost predicate WellCut(calls: seq<ParsedBatch>, size: nat) {
    forall i :: 0 <= i < |calls| ==> Shaped(calls[i], i, i == |calls| - 1, size)
  }

  /** A batch shaped as the last one that happens to be full may be followed by others. */
  lemma FullShape(b: ParsedBatch, i: nat, size: nat)
    requires Shaped(b, i, true, size) && |b.rows| == size
    ensures Shaped(b, i, false, size)
  {
  }

  lemma CutSnoc(calls: seq<ParsedBatch>, b: ParsedBatch, size: nat)
    requires WellCut(calls, size) && (calls != [] ==> |calls[|calls| - 1].rows| == size)
    requires Shaped(b, |calls|, true, size)
    ensures WellCut(calls + [b], size)
  {
    var all := calls + [b];
    forall i | 0 <= i < |all| ensures Shaped(all[i], i, i == |all| - 1, size) {
      if i < |calls| {
        assert Shaped(calls[i], i, i == |calls| - 1, size);
        if i == |calls| - 1 { FullShape(calls[i], i, size); }
      }
    }
  }

  /** The cutting of `k` full batches. */
  lemma {:induction false} FullCut(rows: seq<Row>, k: nat, size: nat)
    requires size > 0 && |rows| == k * size
    ensures |Batches(rows, size)| == k && Flatten(Batches(rows, size)) == rows && WellCut(Batches(rows, size), size)
    ensures k > 0 ==> |Batches(rows, size)[k - 1].rows| == size
    decreases k
  {
    if k == 0 {
      assert rows == [];
    } else {
      var n := (k - 1) * size;
      OneLess(k, size);
      FullCut(rows[..n], k - 1, size);
      CutOneMore(rows, n, k - 1, size);
    }
  }

  lemma OneLess(k: nat, size: nat)
    requires k > 0
    ensures 0 <= (k - 1) * size && (k - 1) * size + size == k * size
  {
  }

  /** The last batch after `k` full ones, which hold the first `n` rows. */
  lemma CutOneMore(rows: seq<Row>, n: nat, k: nat, size: nat)
    requires size > 0 && n == k * size < |rows| <= n + size
    requires var before := Batches(rows[..n], size);
      |before| == k && Flatten(before) == rows[..n] && WellCut(before, size) && (k > 0 ==> |before[k - 1].rows| == size)
    ensures Batches(rows, size) == Batches(rows[..n], size) + [ParsedBatch(k + 1, n + 2, rows[n..])]
    ensures Flatten(Batches(rows, size)) == rows && WellCut(Batches(rows, size), size)
  {
    var before, b := Batches(rows[..n], size), ParsedBatch(k + 1, n + 2, rows[n..]);
    assert rows[..n] + rows[n..] == rows;
    BatchesSnoc(rows[..n], rows[n..], k, size);
    FlattenSnoc(before, b);
    CutSnoc(before, b, size);
  }

  /** What a cutting into batches is: it loses and reorders nothing, numbers the batches from one,
      gives each the row number it starts at, and leaves only the last one short. */
  lemma BatchesPartition(rows: seq<Row>, size: nat)
    requires size > 0
    ensures Flatten(Batches(rows, size)) == rows && WellCut(Batches(rows, size), size)
    ensures rows != [] ==> |Batches(rows, size)| == LastIndex(|rows|, size) + 1
  {
    if rows != [] {
      var k := LastIndex(|rows|, size);
      var n := k * size;
      OneLess(k + 1, size);
      FullCut(rows[..n], k, size);
      CutOneMore(rows, n, k, size);
    }
  }

  /** Cutting fewer rows, at a batch boundary, gives the first batches of the cutting of all rows. */
  lemma {:induction false} BatchesPrefix(rows: seq<Row>, k: nat, size: nat)
    requires size > 0 && k * size <= |rows|
    ensures Batches(rows[..k * size], size) <= Batches(rows, size)
    decreases |rows|
  {
    if k * size == |rows| {
      assert rows[..k * size] == rows;
    } else {
      var n := LastIndex(|rows|, size);
      if k > n { MulMonotone(n + 1, k, size); }
      MulMonotone(k, n, size);
      BatchesPrefix(rows[..n * size], k, size);
      assert rows[..n * size][..k * size] == rows[..k * size];
    }
  }
}
