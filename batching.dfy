/** Mini-batch slicing of the hand-written training loop: the batch starts are
    `range(0, n, batch_size)` and each batch ends at `min(lower + batch_size, n)`. */
module Batching {

  function Min(a: nat, b: nat): (m: nat)
    ensures m <= a && m <= b && (m == a || m == b)
  {
    if a <= b then a else b
  }

  /** The batches [lower, upper) visited from `lower` on, with a positive step. */
  function BatchesFrom(lower: nat, n: nat, bs: nat): seq<(nat, nat)>
    requires bs > 0
    decreases n - lower
  {
    if lower >= n then [] else [(lower, Min(lower + bs, n))] + BatchesFrom(lower + bs, n, bs)
  }

  /** The batches of one pass over n rows.  A negative step makes the range empty; a
      zero step is an error of `range`, which the callers report before slicing. */
  function Batches(n: nat, bs: int): seq<(nat, nat)>
  {
    if bs <= 0 then [] else BatchesFrom(0, n, bs)
  }

  /** Each batch starts where the previous one ends. */
  predicate Contiguous(b: seq<(nat, nat)>)
  {
    forall k :: 0 < k < |b| ==> b[k - 1].1 == b[k].0
  }

  /** The shape of the batches from `lower`: none when `lower >= n`; otherwise they run
      contiguously from `lower` to n, each non-empty and at most `bs` rows, and every
      batch but the last exactly `bs` rows. */
  lemma {:induction false} BatchesFromShape(lower: nat, n: nat, bs: nat)
    requires bs > 0
    ensures var b := BatchesFrom(lower, n, bs);
            (b == [] <==> lower >= n) &&
            (b != [] ==> b[0].0 == lower && b[|b| - 1].1 == n) &&
            (forall k :: 0 <= k < |b| ==> b[k].0 < b[k].1 <= n && b[k].1 - b[k].0 <= bs) &&
            (forall k :: 0 <= k < |b| - 1 ==> b[k].1 - b[k].0 == bs) &&
            Contiguous(b)
    decreases n - lower
  {
    if lower < n {
      var b := BatchesFrom(lower, n, bs);
      var rest := BatchesFrom(lower + bs, n, bs);
      BatchesFromShape(lower + bs, n, bs);
      assert b == [(lower, Min(lower + bs, n))] + rest;
      forall k | 0 <= k < |b| - 1 ensures b[k].1 - b[k].0 == bs {
        if k > 0 {
          assert b[k] == rest[k - 1];
        } else {
          assert rest != [];
        }
      }
      forall k | 0 < k < |b| ensures b[k - 1].1 == b[k].0 {
        if k > 1 {
          assert b[k - 1] == rest[k - 2] && b[k] == rest[k - 1];
        }
      }
    }
  }

  /** The number of batches that contain row x. */
  function CoverCount(b: seq<(nat, nat)>, x: nat): nat
  {
    if b == [] then 0
    else (if b[0].0 <= x < b[0].1 then 1 else 0) + CoverCount(b[1..], x)
  }

  /** Every row from `lower` up to n lies in exactly one batch; no other row lies in any. */
  lemma {:induction false} BatchesFromCoverOnce(lower: nat, n: nat, bs: nat, x: nat)
    requires bs > 0
    ensures CoverCount(BatchesFrom(lower, n, bs), x) == if lower <= x < n then 1 else 0
    decreases n - lower
  {
    if lower < n {
      BatchesFromCoverOnce(lower + bs, n, bs, x);
      var b := BatchesFrom(lower, n, bs);
      assert b[1..] == BatchesFrom(lower + bs, n, bs);
    }
  }

  /** The mini-batches of an epoch are pairwise disjoint and cover [0, n) exactly once;
      each is non-empty with at most `bs` rows, and all but the last have exactly `bs`. */
  lemma BatchesPartitionRows(n: nat, bs: nat, x: nat)
    requires bs > 0
    ensures var b := Batches(n, bs);
            CoverCount(b, x) == (if x < n then 1 else 0) &&
            (b == [] <==> n == 0) &&
            (b != [] ==> b[0].0 == 0 && b[|b| - 1].1 == n) &&
            (forall k :: 0 <= k < |b| ==> b[k].0 < b[k].1 <= n && b[k].1 - b[k].0 <= bs) &&
            (forall k :: 0 <= k < |b| - 1 ==> b[k].1 - b[k].0 == bs) &&
            Contiguous(b)
  {
    BatchesFromCoverOnce(0, n, bs, x);
    BatchesFromShape(0, n, bs);
  }
}
