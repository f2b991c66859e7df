/** Python's `for i in range(0, len(xs), size): batch = xs[i:i + size]`:
    consecutive slices of at most `size` elements, and the progress count
    `i + len(batch)` reported after each one. */
module Batching {
  import opened Seqs

  function Min(a: int, b: int): int {
    if a <= b then a else b
  }

  /** The slices of `xs`, front to back. */
  function Batches<T>(xs: seq<T>, size: nat): seq<seq<T>>
    requires size > 0
    decreases |xs|
  {
    if |xs| == 0 then []
    else if |xs| <= size then [xs]
    else [xs[..size]] + Batches(xs[size..], size)
  }

  /** The slices put back together give the list: every element is in
      exactly one batch, in order. */
  lemma {:induction false} FlattenBatches<T>(xs: seq<T>, size: nat)
    requires size > 0
    ensures Flatten(Batches(xs, size)) == xs
    decreases |xs|
  {
    if |xs| == 0 {
    } else if |xs| <= size {
      FlattenSingle(xs);
    } else {
      var rest := Batches(xs[size..], size);
      FlattenBatches(xs[size..], size);
      assert ([xs[..size]] + rest)[1..] == rest;
      assert xs[..size] + xs[size..] == xs;
    }
  }

  lemma MulSucc(b: nat, size: nat)
    ensures (b + 1) * size == b * size + size
  {
  }

  /** Batch `b` is the slice `xs[b * size : (b + 1) * size]`, clipped at the
      end, and a batch starts at every multiple of `size` before the end. */
  lemma BatchesAreSlices<T>(xs: seq<T>, size: nat)
    requires size > 0
    ensures forall b :: 0 <= b < |Batches(xs, size)| ==>
      b * size < |xs| && Batches(xs, size)[b] == xs[b * size..Min((b + 1) * size, |xs|)]
    ensures |Batches(xs, size)| * size >= |xs|
  {
    forall b | 0 <= b < |Batches(xs, size)|
      ensures b * size < |xs| && Batches(xs, size)[b] == xs[b * size..Min((b + 1) * size, |xs|)]
    {
      BatchAt(xs, size, b);
    }
    BatchesCover(xs, size);
  }

  /** Batch `b` on its own. */
  lemma {:induction false} BatchAt<T>(xs: seq<T>, size: nat, b: nat)
    requires size > 0 && b < |Batches(xs, size)|
    ensures b * size < |xs| && Batches(xs, size)[b] == xs[b * size..Min((b + 1) * size, |xs|)]
    decreases |xs|
  {
    if b > 0 {
      var tail := xs[size..];
      assert Batches(xs, size) == [xs[..size]] + Batches(tail, size);
      BatchAt(tail, size, b - 1);
      ShiftSlice(xs, size, b - 1, Batches(tail, size)[b - 1]);
    }
  }

  /** There are enough batches to hold every element. */
  lemma {:induction false} BatchesCover<T>(xs: seq<T>, size: nat)
    requires size > 0
    ensures |Batches(xs, size)| * size >= |xs|
    decreases |xs|
  {
    if |xs| > size {
      var rest := Batches(xs[size..], size);
      BatchesCover(xs[size..], size);
      assert Batches(xs, size) == [xs[..size]] + rest;
      MulSucc(|rest|, size);
    }
  }

  /** Batch `c` of the list after its first batch is batch `c + 1` of the list. */
  lemma ShiftSlice<T>(xs: seq<T>, size: nat, c: nat, piece: seq<T>)
    requires 0 < size < |xs|
    requires c * size < |xs| - size
    requires piece == xs[size..][c * size..Min((c + 1) * size, |xs| - size)]
    ensures (c + 1) * size < |xs|
    ensures piece == xs[(c + 1) * size..Min((c + 2) * size, |xs|)]
  {
    MulSucc(c, size);
    MulSucc(c + 1, size);
  }

  /** Every batch holds between one and `size` elements, and every batch but
      the last holds exactly `size`. */
  lemma {:induction false} BatchSizes<T>(xs: seq<T>, size: nat)
    requires size > 0
    ensures forall b :: 0 <= b < |Batches(xs, size)| ==> 0 < |Batches(xs, size)[b]| <= size
    ensures forall b :: 0 <= b < |Batches(xs, size)| - 1 ==> |Batches(xs, size)[b]| == size
    decreases |xs|
  {
    if |xs| > size {
      var rest := Batches(xs[size..], size);
      BatchSizes(xs[size..], size);
      assert Batches(xs, size) == [xs[..size]] + rest;
    }
  }

  /** What the loop reports after batch `b`: `i + len(batch)` with
      `i = b * size`. */
  function ProgressAfter(b: nat, size: nat, total: nat): int {
    Min((b + 1) * size, total)
  }

  /** Reports `ProgressAfter(b, ...)` for the batches so far, each made for
      a batch that starts before the end. */
  predicate ReportsSoFar(progress: seq<int>, size: nat, total: nat) {
    forall b :: 0 <= b < |progress| ==> b * size < total && progress[b] == ProgressAfter(b, size, total)
  }

  /** The report for the batch starting at `i` extends the reports so far. */
  lemma ReportNext(progress: seq<int>, size: nat, total: nat, i: nat)
    requires i == |progress| * size && i < total
    requires ReportsSoFar(progress, size, total)
    ensures ReportsSoFar(progress + [Min(i + size, total)], size, total)
  {
    MulSucc(|progress|, size);
  }

  /** The reports of a loop over batches of `size` of a list of `total`
      elements: one per batch, each made for a batch that starts before the
      end, the last one at the end, and none for an empty list. */
  predicate IsProgressOf(progress: seq<int>, size: nat, total: nat) {
    && ReportsSoFar(progress, size, total)
    && (|progress| > 0 ==> progress[|progress| - 1] == total)
    && (|progress| == 0 <==> total == 0)
  }

  /** Such reports climb strictly, end at the total, and there is one per
      batch. */
  lemma ProgressClimbs(progress: seq<int>, size: nat, total: nat)
    requires size > 0
    requires IsProgressOf(progress, size, total)
    ensures forall b :: 0 <= b < |progress| - 1 ==> progress[b] < progress[b + 1]
    ensures |progress| > 0 ==> (|progress| - 1) * size < total <= |progress| * size
  {
    forall b | 0 <= b < |progress| - 1
      ensures progress[b] < progress[b + 1]
    {
      MulSucc(b + 1, size);
    }
    var n := |progress|;
    if n > 0 {
      assert (n - 1) * size < total;
      MulSucc(n - 1, size);
    }
  }

  lemma MulMono(a: nat, b: nat, size: nat)
    requires a <= b
    ensures a * size <= b * size
  {
  }

  /** The slice a batch loop takes after `n` batches, `xs[i : i + size]`
      with `i = n * size`, is batch `n`. */
  lemma LoopBatch<T>(xs: seq<T>, size: nat, n: nat, i: nat, end: nat)
    requires size > 0 && i == n * size && i < |xs| && end == Min(i + size, |xs|)
    ensures i < end <= |xs|
    ensures n < |Batches(xs, size)| && xs[i..end] == Batches(xs, size)[n]
  {
    BatchesCover(xs, size);
    if n >= |Batches(xs, size)| {
      MulMono(|Batches(xs, size)|, n, size);
      assert false;
    }
    BatchAt(xs, size, n);
    MulSucc(n, size);
  }

  /** Reports of a finished loop come one per batch, report `b` being the
      start of batch `b` plus its length. */
  lemma ProgressPerBatch<T>(xs: seq<T>, size: nat, progress: seq<int>)
    requires size > 0 && IsProgressOf(progress, size, |xs|)
    ensures |progress| == |Batches(xs, size)|
    ensures forall b :: 0 <= b < |progress| ==> progress[b] == b * size + |Batches(xs, size)[b]|
  {
    if |xs| > 0 {
      var bs := Batches(xs, size);
      ProgressClimbs(progress, size, |xs|);
      BatchesCover(xs, size);
      BatchAt(xs, size, |bs| - 1);
      BatchCountUnique(|progress|, |bs|, size, |xs|);
    }
    forall b | 0 <= b < |progress|
      ensures progress[b] == b * size + |Batches(xs, size)[b]|
    {
      ReportOfBatch(xs, size, progress, b);
    }
  }

  /** Report `b` is the start of batch `b` plus its length. */
  lemma ReportOfBatch<T>(xs: seq<T>, size: nat, progress: seq<int>, b: nat)
    requires size > 0 && ReportsSoFar(progress, size, |xs|)
    requires b < |progress| && b < |Batches(xs, size)|
    ensures progress[b] == b * size + |Batches(xs, size)[b]|
  {
    ReportAt(progress, size, |xs|, b);
    BatchLength(xs, size, b);
  }

  lemma ReportAt(progress: seq<int>, size: nat, total: nat, b: nat)
    requires ReportsSoFar(progress, size, total) && b < |progress|
    ensures progress[b] == Min((b + 1) * size, total)
  {
  }

  /** Batch `b` runs from `b * size` to `(b + 1) * size`, clipped at the end. */
  lemma BatchLength<T>(xs: seq<T>, size: nat, b: nat)
    requires size > 0 && b < |Batches(xs, size)|
    ensures |Batches(xs, size)[b]| == Min((b + 1) * size, |xs|) - b * size
  {
    BatchAt(xs, size, b);
    MulSucc(b, size);
    PieceLength(xs, Batches(xs, size)[b], b * size, size, Min((b + 1) * size, |xs|));
  }

  /** A slice starting before the end and clipped `size` further on. */
  lemma PieceLength<T>(xs: seq<T>, piece: seq<T>, lo: int, size: nat, hi: int)
    requires 0 <= lo < |xs| && hi == Min(lo + size, |xs|)
    requires piece == xs[lo..hi]
    ensures |piece| == hi - lo
  {
  }

  /** Only one count of batches of `size` covers `total` with its last batch
      non-empty. */
  lemma BatchCountUnique(n: nat, m: nat, size: nat, total: nat)
    requires 0 < n && 0 < m
    requires (n - 1) * size < total <= n * size
    requires (m - 1) * size < total <= m * size
    ensures n == m
  {
    if n < m {
      MulMono(n, m - 1, size);
    } else if m < n {
      MulMono(m, n - 1, size);
    }
  }
}
