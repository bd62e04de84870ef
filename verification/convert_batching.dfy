/** The batcher of the conversion endpoint: one left-to-right pass that groups the fetched
    files into batches whose summed content length stays within 80 000, except that a
    batch of a single file may exceed it. */
module Batching {
  import opened JsValues

  /** `sizeLimit` */
  const SizeLimit: nat := 80000

  /** `s.length`: JavaScript counts UTF-16 code units, so a character outside the Basic
      Multilingual Plane counts twice. */
  function JsLength(s: string): (n: nat)
    ensures |s| <= n <= 2 * |s|
  {
    if s == [] then 0 else JsLength(s[..|s| - 1]) + (if s[|s| - 1] as int >= 0x1_0000 then 2 else 1)
  }

  /** `f.content.length` */
  function Len(f: SourceFile): nat {
    JsLength(f.content)
  }

  /** The summed content length of a batch. */
  function Size(b: seq<SourceFile>): nat {
    if b == [] then 0 else Size(b[..|b| - 1]) + Len(b[|b| - 1])
  }

  /** The batches laid end to end. */
  function Flatten(bs: seq<seq<SourceFile>>): seq<SourceFile> {
    if bs == [] then [] else bs[0] + Flatten(bs[1..])
  }

  /** What the greedy pass produces: the batches lay end to end to give the input, none is
      empty, each holds one file or fits the limit, and each batch but the last was closed
      only because the next file would have pushed it past the limit. */
  ghost predicate IsGreedyPartition(files: seq<SourceFile>, bs: seq<seq<SourceFile>>) {
    Flatten(bs) == files && IsGreedyRun(bs)
  }

  /** The conditions of a greedy partition that do not mention the input. */
  ghost predicate IsGreedyRun(bs: seq<seq<SourceFile>>) {
    && (forall i :: 0 <= i < |bs| ==> IsBatch(bs[i]))
    && (forall i :: 0 <= i < |bs| - 1 ==> ClosedBefore(bs[i], bs[i + 1]))
  }

  /** A batch is non-empty, and holds one file or fits the limit. */
  ghost predicate IsBatch(b: seq<SourceFile>) {
    b != [] && (|b| == 1 || Size(b) <= SizeLimit)
  }

  /** Batch `b` was closed because the first file of `next` would have pushed it past the limit. */
  ghost predicate ClosedBefore(b: seq<SourceFile>, next: seq<SourceFile>) {
    next != [] && Size(b) + Len(next[0]) > SizeLimit
  }

  /** Closing one more batch keeps the run greedy. */
  lemma CloseBatch(bs: seq<seq<SourceFile>>, b: seq<SourceFile>)
    requires IsGreedyRun(bs)
    requires IsBatch(b)
    requires bs != [] ==> ClosedBefore(bs[|bs| - 1], b)
    ensures IsGreedyRun(bs + [b])
  {
    var r := bs + [b];
    forall i | 0 <= i < |r|
      ensures IsBatch(r[i])
    {
      if i < |bs| {
        assert r[i] == bs[i];
      }
    }
    forall i | 0 <= i < |r| - 1
      ensures ClosedBefore(r[i], r[i + 1])
    {
      if i < |bs| - 1 {
        assert r[i] == bs[i] && r[i + 1] == bs[i + 1];
      } else {
        assert r[i] == bs[|bs| - 1] && r[i + 1] == b;
      }
    }
  }

  lemma {:induction false} FlattenAppend(a: seq<seq<SourceFile>>, b: seq<seq<SourceFile>>)
    ensures Flatten(a + b) == Flatten(a) + Flatten(b)
  {
    if a == [] {
      assert a + b == b;
    } else {
      assert (a + b)[1..] == a[1..] + b;
      FlattenAppend(a[1..], b);
    }
  }

  lemma {:induction false} SizeAppend(a: seq<SourceFile>, b: seq<SourceFile>)
    ensures Size(a + b) == Size(a) + Size(b)
    decreases |b|
  {
    if b == [] {
      assert a + b == a;
    } else {
      assert (a + b)[..|a + b| - 1] == a + b[..|b| - 1];
      SizeAppend(a, b[..|b| - 1]);
    }
  }

  lemma SizePrefix(b: seq<SourceFile>, k: nat)
    requires k <= |b|
    ensures Size(b[..k]) <= Size(b)
  {
    var front, back := b[..k], b[k..];
    assert front + back == b;
    SizeAppend(front, back);
  }

  lemma {:induction false} FileWithinSize(b: seq<SourceFile>, j: nat)
    requires j < |b|
    ensures Len(b[j]) <= Size(b)
  {
    if j < |b| - 1 {
      FileWithinSize(b[..|b| - 1], j);
    }
  }

  /** `batches`, built by the loop at the heart of the request handler. */
  method MakeBatches(files: seq<SourceFile>) returns (batches: seq<seq<SourceFile>>)
    ensures IsGreedyPartition(files, batches)
    ensures files == [] <==> batches == []
  {
    batches := [];
    var cur: seq<SourceFile> := [];
    var curSize: nat := 0;
    for i := 0 to |files|
      invariant Progress(files, i, batches, cur, curSize)
    {
      var f := files[i];
      var len := Len(f);
      if curSize + len > SizeLimit && cur != [] {
        StepAfterClosing(files, i, batches, cur, curSize);
        batches := batches + [cur];
        cur := [];
        curSize := 0;
      } else {
        StepIntoCurrent(files, i, batches, cur, curSize);
      }
      cur := cur + [f];
      curSize := curSize + len;
    }
    Finish(files, batches, cur, curSize);
    if cur != [] {
      batches := batches + [cur];
    }
  }

  /** The loop invariant of `MakeBatches` after the first `i` files: the closed batches and the
      running batch together hold those files, the closed batches form a greedy run, the
      running batch is on its way to being a batch that follows them, and `curSize` is its size. */
  ghost predicate Progress(files: seq<SourceFile>, i: nat, batches: seq<seq<SourceFile>>, cur: seq<SourceFile>, curSize: nat) {
    && i <= |files|
    && Flatten(batches) + cur == files[..i]
    && (i > 0 ==> cur != [])
    && (|cur| <= 1 || Size(cur) <= SizeLimit)
    && IsGreedyRun(batches)
    && (batches != [] ==> ClosedBefore(batches[|batches| - 1], cur))
    && curSize == Size(cur)
  }

  lemma StepAfterClosing(files: seq<SourceFile>, i: nat, batches: seq<seq<SourceFile>>, cur: seq<SourceFile>, curSize: nat)
    requires i < |files| && Progress(files, i, batches, cur, curSize)
    requires cur != [] && curSize + Len(files[i]) > SizeLimit
    ensures Progress(files, i + 1, batches + [cur], [] + [files[i]], 0 + Len(files[i]))
  {
    var closed, next := batches + [cur], [] + [files[i]];
    CloseBatch(batches, cur);
    FlattenOne(batches, cur);
    TakeOneMore(files, i);
    assert Flatten(closed) + next == files[..i + 1];
    assert closed[|closed| - 1] == cur;
    GrowBatch([], files[i]);
    assert Size(next) == Len(files[i]);
  }

  lemma StepIntoCurrent(files: seq<SourceFile>, i: nat, batches: seq<seq<SourceFile>>, cur: seq<SourceFile>, curSize: nat)
    requires i < |files| && Progress(files, i, batches, cur, curSize)
    requires !(cur != [] && curSize + Len(files[i]) > SizeLimit)
    ensures Progress(files, i + 1, batches, cur + [files[i]], curSize + Len(files[i]))
  {
    GrowBatch(cur, files[i]);
    TakeOneMore(files, i);
  }

  lemma Finish(files: seq<SourceFile>, batches: seq<seq<SourceFile>>, cur: seq<SourceFile>, curSize: nat)
    requires Progress(files, |files|, batches, cur, curSize)
    ensures cur == [] ==> IsGreedyPartition(files, batches) && (files == [] <==> batches == [])
    ensures cur != [] ==> IsGreedyPartition(files, batches + [cur]) && files != []
  {
    assert files[..|files|] == files;
    if cur != [] {
      CloseBatch(batches, cur);
      FlattenOne(batches, cur);
    }
  }

  lemma TakeOneMore(s: seq<SourceFile>, i: nat)
    requires i < |s|
    ensures s[..i + 1] == s[..i] + [s[i]]
  {
  }

  lemma FlattenOne(bs: seq<seq<SourceFile>>, b: seq<SourceFile>)
    ensures Flatten(bs + [b]) == Flatten(bs) + b
  {
    FlattenAppend(bs, [b]);
    assert [b][1..] == [];
  }

  lemma GrowBatch(b: seq<SourceFile>, f: SourceFile)
    ensures Size(b + [f]) == Size(b) + Len(f)
    ensures b != [] ==> (b + [f])[0] == b[0]
  {
    assert (b + [f])[..|b|] == b;
  }

  /** A file longer than the limit always sits alone in its batch. */
  lemma OversizedFileIsAlone(files: seq<SourceFile>, bs: seq<seq<SourceFile>>, i: nat, j: nat)
    requires IsGreedyPartition(files, bs)
    requires i < |bs| && j < |bs[i]|
    requires Len(bs[i][j]) > SizeLimit
    ensures bs[i] == [bs[i][j]]
  {
    FileWithinSize(bs[i], j);
  }

  /** When no single file is over the limit, no batch is either. */
  lemma BatchesWithinLimit(files: seq<SourceFile>, bs: seq<seq<SourceFile>>)
    requires IsGreedyPartition(files, bs)
    requires forall k :: 0 <= k < |files| ==> Len(files[k]) <= SizeLimit
    ensures forall i :: 0 <= i < |bs| ==> Size(bs[i]) <= SizeLimit
  {
    forall i | 0 <= i < |bs|
      ensures Size(bs[i]) <= SizeLimit
    {
      if |bs[i]| == 1 {
        FileInFlatten(bs, i, 0);
        var k :| 0 <= k < |files| && files[k] == bs[i][0];
        assert Size(bs[i]) == Size(bs[i][..0]) + Len(bs[i][0]);
      }
    }
  }

  lemma {:induction false} FileInFlatten(bs: seq<seq<SourceFile>>, i: nat, j: nat)
    requires i < |bs| && j < |bs[i]|
    ensures exists k :: 0 <= k < |Flatten(bs)| && Flatten(bs)[k] == bs[i][j]
  {
    if i == 0 {
      assert Flatten(bs)[j] == bs[0][j];
    } else {
      FileInFlatten(bs[1..], i - 1, j);
      var k :| 0 <= k < |Flatten(bs[1..])| && Flatten(bs[1..])[k] == bs[1..][i - 1][j];
      assert Flatten(bs)[|bs[0]| + k] == bs[i][j];
    }
  }

  lemma NoBatchesIffNoFiles(files: seq<SourceFile>, bs: seq<seq<SourceFile>>)
    requires IsGreedyPartition(files, bs)
    ensures files == [] <==> bs == []
  {
    if bs != [] {
      assert Flatten(bs) == bs[0] + Flatten(bs[1..]);
    }
  }

  /** The greedy pass has only one possible outcome: two greedy partitions of the same
      files are equal. */
  lemma {:induction false} GreedyPartitionUnique(files: seq<SourceFile>, b1: seq<seq<SourceFile>>, b2: seq<seq<SourceFile>>)
    requires IsGreedyPartition(files, b1) && IsGreedyPartition(files, b2)
    ensures b1 == b2
    decreases |files|
  {
    NoBatchesIffNoFiles(files, b1);
    NoBatchesIffNoFiles(files, b2);
    if files != [] {
      FirstBatchesEqual(files, b1, b2);
      var n := |b1[0]|;
      assert files == b1[0] + Flatten(b1[1..]) == b2[0] + Flatten(b2[1..]);
      var rest := files[n..];
      assert Flatten(b1[1..]) == rest && Flatten(b2[1..]) == rest;
      assert IsGreedyPartition(rest, b1[1..]);
      assert IsGreedyPartition(rest, b2[1..]);
      GreedyPartitionUnique(rest, b1[1..], b2[1..]);
      assert b1 == [b1[0]] + b1[1..];
      assert b2 == [b2[0]] + b2[1..];
    }
  }

  /** A first batch that does not take every file was closed because the next file did not fit. */
  lemma FirstBatchClosedForGood(files: seq<SourceFile>, bs: seq<seq<SourceFile>>)
    requires IsGreedyPartition(files, bs)
    requires bs != [] && |bs[0]| < |files|
    ensures Size(files[..|bs[0]| + 1]) > SizeLimit
  {
    var n := |bs[0]|;
    assert files == bs[0] + Flatten(bs[1..]);
    assert |Flatten(bs[1..])| > 0;
    assert bs[1..] != [];
    assert Flatten(bs[1..]) == bs[1] + Flatten(bs[2..]);
    assert bs[1][0] == files[n];
    assert files[..n + 1] == bs[0] + [files[n]];
    SizeAppend(bs[0], [files[n]]);
    assert Size([files[n]]) == Size([files[n]][..0]) + Len(files[n]);
  }

  /** A first batch of two or more files fits the limit, and so does each of its prefixes. */
  lemma FirstBatchFits(files: seq<SourceFile>, bs: seq<seq<SourceFile>>, k: nat)
    requires IsGreedyPartition(files, bs)
    requires bs != [] && |bs[0]| >= 2 && k <= |bs[0]|
    ensures Size(files[..k]) <= SizeLimit
  {
    assert files == bs[0] + Flatten(bs[1..]);
    assert files[..k] == bs[0][..k];
    SizePrefix(bs[0], k);
  }

  lemma FirstBatchesEqual(files: seq<SourceFile>, b1: seq<seq<SourceFile>>, b2: seq<seq<SourceFile>>)
    requires IsGreedyPartition(files, b1) && IsGreedyPartition(files, b2)
    requires b1 != [] && b2 != []
    ensures b1[0] == b2[0]
  {
    assert files == b1[0] + Flatten(b1[1..]) == b2[0] + Flatten(b2[1..]);
    var n1, n2 := |b1[0]|, |b2[0]|;
    if n1 < n2 {
      FirstBatchClosedForGood(files, b1);
      FirstBatchFits(files, b2, n1 + 1);
      assert false;
    } else if n2 < n1 {
      FirstBatchClosedForGood(files, b2);
      FirstBatchFits(files, b1, n2 + 1);
      assert false;
    }
    assert b1[0] == files[..n1] == b2[0];
  }

  /** Two small files fit one batch, in their original order. */
  lemma SmallFilesShareOneBatch(a: SourceFile, b: SourceFile, bs: seq<seq<SourceFile>>)
    requires Len(a) == 10 && Len(b) == 10
    requires IsGreedyPartition([a, b], bs)
    ensures bs == [[a, b]]
  {
    var one := [[a, b]];
    assert Flatten(one) == [a, b];
    assert [a, b][..1] == [a];
    assert [a][..0] == [];
    assert Size([a]) == 10;
    assert Size([a, b]) == 20;
    assert IsGreedyPartition([a, b], one);
    GreedyPartitionUnique([a, b], bs, one);
  }
}
