/**
 * The flush-on-full batching loop shared by the ingest scripts: items are
 * appended to a batch, the batch is flushed as soon as its length reaches
 * `batch_size` (`len(batch) >= batch_size`), and a final partial batch is
 * flushed after the loop.
 */
module Batching {
  import opened Common

  /** The effective batch length: a `batch_size` below 1 flushes every item on
      its own, because the length test already holds after one append. */
  function Cap(size: int): (c: nat)
    ensures c >= 1 && (size >= 1 ==> c == size)
  {
    if size < 1 then 1 else size
  }

  /** `bs` is how the loop cuts `items`: in order, nothing lost, every batch
      non-empty, every batch but the last exactly full. */
  predicate Batched<T(==)>(bs: seq<seq<T>>, items: seq<T>, size: int)
  {
    && Concat(bs) == items
    && (forall k :: 0 <= k < |bs| ==> 0 < |bs[k]| <= Cap(size))
    && (forall k :: 0 <= k < |bs| - 1 ==> |bs[k]| == Cap(size))
  }

  /** The state inside the loop: the flushed batches are all full, and they
      followed by the open batch give the items seen so far. */
  predicate Pending<T(==)>(flushed: seq<seq<T>>, batch: seq<T>, seen: seq<T>, size: int)
  {
    && Concat(flushed) + batch == seen
    && (forall k :: 0 <= k < |flushed| ==> |flushed[k]| == Cap(size))
    && |batch| < Cap(size)
  }

  /** Appending one item, and flushing when the batch is full, keeps the state. */
  lemma PendingAdd<T>(flushed: seq<seq<T>>, batch: seq<T>, seen: seq<T>, size: int, x: T)
    requires Pending(flushed, batch, seen, size)
    ensures |batch + [x]| >= size <==> |batch + [x]| == Cap(size)
    ensures |batch + [x]| >= size ==> Pending(flushed + [batch + [x]], [], seen + [x], size)
    ensures |batch + [x]| < size ==> Pending(flushed, batch + [x], seen + [x], size)
  {
    ConcatAppend(flushed, batch + [x]);
  }

  /** Flushing the open batch after the loop gives the batching of everything. */
  lemma PendingDone<T>(flushed: seq<seq<T>>, batch: seq<T>, seen: seq<T>, size: int)
    requires Pending(flushed, batch, seen, size)
    ensures Batched(if batch != [] then flushed + [batch] else flushed, seen, size)
  {
    if batch != [] {
      ConcatAppend(flushed, batch);
    } else {
      assert Concat(flushed) + [] == Concat(flushed);
    }
  }

  /** The first batch holds `min(Cap(size), |items|)` items. */
  lemma FirstBatch<T>(bs: seq<seq<T>>, items: seq<T>, size: int)
    requires Batched(bs, items, size) && bs != []
    ensures |bs[0]| == (if |items| < Cap(size) then |items| else Cap(size))
    ensures items == bs[0] + Concat(bs[1..])
    ensures Batched(bs[1..], items[|bs[0]|..], size)
  {
    if |bs| > 1 {
      assert |Concat(bs[1..])| >= |bs[1]| by {
        assert Concat(bs[1..]) == bs[1] + Concat(bs[2..]);
      }
    } else {
      assert Concat(bs[1..]) == [];
    }
    assert forall k :: 0 <= k < |bs| - 1 ==> bs[1..][k] == bs[k + 1];
  }

  /** The batching is determined by the items and the batch size. */
  lemma {:induction false} BatchedUnique<T>(a: seq<seq<T>>, b: seq<seq<T>>, items: seq<T>, size: int)
    requires Batched(a, items, size) && Batched(b, items, size)
    ensures a == b
    decreases |items|
  {
    if a != [] && b != [] {
      FirstBatch(a, items, size);
      FirstBatch(b, items, size);
      assert a[0] == items[..|a[0]|] == b[0];
      BatchedUnique(a[1..], b[1..], items[|a[0]|..], size);
      assert a == [a[0]] + a[1..] && b == [b[0]] + b[1..];
    }
  }

  /** There are `ceil(|items| / Cap(size))` batches: the fewest batches of
      `Cap(size)` items that hold them all. */
  lemma {:induction false} BatchCount<T>(bs: seq<seq<T>>, items: seq<T>, size: int)
    requires Batched(bs, items, size)
    ensures |items| <= |bs| * Cap(size)
    ensures bs != [] ==> (|bs| - 1) * Cap(size) < |items|
    decreases |items|
  {
    var c := Cap(size);
    if bs != [] {
      FirstBatch(bs, items, size);
      var rest := bs[1..];
      BatchCount(rest, items[|bs[0]|..], size);
      if |items| < c {
        assert rest == [] by {
          if rest != [] {
            assert false;
          }
        }
      } else {
        assert |bs| * c == c + |rest| * c;
        assert (|bs| - 1) * c == |rest| * c;
        if rest != [] {
          assert (|bs| - 1) * c == c + (|rest| - 1) * c;
        }
      }
    }
  }

  /** The batching as a function: cut `Cap(size)` items at a time. */
  function Batches<T>(items: seq<T>, size: int): seq<seq<T>>
    decreases |items|
  {
    if items == [] then []
    else
      var n := if |items| < Cap(size) then |items| else Cap(size);
      [items[..n]] + Batches(items[n..], size)
  }

  lemma {:induction false} BatchesBatched<T>(items: seq<T>, size: int)
    ensures Batched(Batches(items, size), items, size)
    decreases |items|
  {
    if items != [] {
      var n := if |items| < Cap(size) then |items| else Cap(size);
      var rest := Batches(items[n..], size);
      BatchesBatched(items[n..], size);
      var bs := [items[..n]] + rest;
      assert bs[1..] == rest;
      assert Concat(bs) == items by {
        assert items == items[..n] + items[n..];
      }
      assert rest != [] ==> n == Cap(size) by {
        if rest != [] {
          assert items[n..] != [];
        }
      }
    }
  }

  /** A loop that batches `items` produces exactly `Batches(items, size)`. */
  lemma BatchedIsBatches<T>(bs: seq<seq<T>>, items: seq<T>, size: int)
    requires Batched(bs, items, size)
    ensures bs == Batches(items, size)
  {
    BatchesBatched(items, size);
    BatchedUnique(bs, Batches(items, size), items, size);
  }

  /** Every batched item is one of the items. */
  lemma {:induction false} BatchesHoldItems<T>(items: seq<T>, size: int, k: nat, j: nat)
    requires k < |Batches(items, size)| && j < |Batches(items, size)[k]|
    ensures Batches(items, size)[k][j] in items
    decreases |items|
  {
    var n := if |items| < Cap(size) then |items| else Cap(size);
    if k > 0 {
      BatchesHoldItems(items[n..], size, k - 1, j);
    }
  }
}
