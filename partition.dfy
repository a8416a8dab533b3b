/** Splitting a batch by condition label, as `tf.dynamic_partition` does in the MMD
    losses: row i goes to partition labels[i], partitions keep the rows' order, and a
    label outside [0, num_partitions) is an error.  Also the int cast of float labels
    and the one-hot / argmax pair that the multi-condition model uses. */
module Partition {
  import opened Numerics

  /** Cast of a float to int32: truncation toward zero. */
  function TruncToInt(r: real): (k: int)
    ensures (k as real) <= r < (k as real) + 1.0 || (k as real) - 1.0 < r <= (k as real)
    ensures r >= 0.0 ==> k >= 0
  {
    if r >= 0.0 then r.Floor else -((-r).Floor)
  }

  /** The cast keeps integer-valued labels, and a float label lands in the two-group
      range {0, 1} exactly when it lies strictly between -1 and 2. */
  lemma TruncToIntProperties(r: real, k: int)
    ensures TruncToInt(k as real) == k
    ensures 0 <= TruncToInt(r) <= 1 <==> -1.0 < r < 2.0
  {
  }

  function CastLabels(labels: seq<real>): (ks: seq<int>)
    ensures |ks| == |labels|
    ensures forall i :: 0 <= i < |labels| ==> ks[i] == TruncToInt(labels[i])
  {
    seq(|labels|, i requires 0 <= i < |labels| => TruncToInt(labels[i]))
  }

  predicate InRange(labels: seq<int>, n: nat)
  {
    forall i :: 0 <= i < |labels| ==> 0 <= labels[i] < n
  }

  /** The rows labelled g, in their original order. */
  function Group<T>(rows: seq<T>, labels: seq<int>, g: int): (r: seq<T>)
    requires |rows| == |labels|
    ensures |r| <= |rows|
  {
    if rows == [] then []
    else
      var n := |rows| - 1;
      Group(rows[..n], labels[..n], g) + (if labels[n] == g then [rows[n]] else [])
  }

  /** The positions carrying label g, in increasing order. */
  function Positions(labels: seq<int>, g: int): seq<nat>
  {
    if labels == [] then []
    else
      var n := |labels| - 1;
      Positions(labels[..n], g) + (if labels[n] == g then [n] else [])
  }

  /** `tf.dynamic_partition(rows, labels, n)`: None for mismatched lengths or a label
      outside [0, n), the n groups otherwise. */
  function Split<T>(rows: seq<T>, labels: seq<int>, n: nat): (r: Option<seq<seq<T>>>)
    ensures r.Some? <==> |rows| == |labels| && InRange(labels, n)
    ensures r.Some? ==> |r.value| == n
  {
    if |rows| != |labels| || !InRange(labels, n) then None
    else Some(seq(n, g requires 0 <= g < n => Group(rows, labels, g)))
  }

  /** The positions labelled g are strictly increasing, and they are exactly the
      positions whose label is g. */
  lemma {:induction false} PositionsExact(labels: seq<int>, g: int)
    ensures forall a, b :: 0 <= a < b < |Positions(labels, g)| ==>
              Positions(labels, g)[a] < Positions(labels, g)[b]
    ensures forall k :: 0 <= k < |Positions(labels, g)| ==> Positions(labels, g)[k] < |labels|
    ensures forall i :: 0 <= i < |labels| ==> (labels[i] == g <==> i in Positions(labels, g))
  {
    if labels != [] {
      var n := |labels| - 1;
      PositionsExact(labels[..n], g);
      forall i | 0 <= i < n ensures labels[i] == labels[..n][i] {
      }
    }
  }

  /** Group g gathers the rows at the positions labelled g, in increasing order: the
      partition is order-preserving and loses no row of that label. */
  lemma {:induction false} GroupGathers<T>(rows: seq<T>, labels: seq<int>, g: int)
    requires |rows| == |labels|
    ensures |Group(rows, labels, g)| == |Positions(labels, g)|
    ensures forall k :: 0 <= k < |Positions(labels, g)| ==>
              Positions(labels, g)[k] < |rows| &&
              Group(rows, labels, g)[k] == rows[Positions(labels, g)[k]]
  {
    if rows != [] {
      var n := |rows| - 1;
      GroupGathers(rows[..n], labels[..n], g);
      PositionsExact(labels[..n], g);
    }
  }

  /** Every row of a group is a row of the batch, so groups keep the row width. */
  lemma {:induction false} GroupRect(rows: Matrix, labels: seq<int>, g: int, w: nat)
    requires |rows| == |labels| && Rect(rows, w)
    ensures Rect(Group(rows, labels, g), w)
  {
    if rows != [] {
      var n := |rows| - 1;
      GroupRect(rows[..n], labels[..n], g, w);
    }
  }

  /** A group is empty exactly when no row carries its label. */
  lemma GroupEmptyIff<T>(rows: seq<T>, labels: seq<int>, g: int)
    requires |rows| == |labels|
    ensures Group(rows, labels, g) == [] <==> forall i :: 0 <= i < |labels| ==> labels[i] != g
  {
    GroupGathers(rows, labels, g);
    PositionsExact(labels, g);
    if Group(rows, labels, g) == [] {
      assert Positions(labels, g) == [];
    } else {
      var p := Positions(labels, g)[0];
      assert labels[p] == g;
    }
  }

  /** Two labellings that select the same rows for g and h give the same group. */
  lemma {:induction false} GroupRelabel<T>(rows: seq<T>, labels: seq<int>, g: int, labels': seq<int>, h: int)
    requires |rows| == |labels| == |labels'|
    requires forall i :: 0 <= i < |labels| ==> (labels[i] == g <==> labels'[i] == h)
    ensures Group(rows, labels, g) == Group(rows, labels', h)
  {
    if rows != [] {
      var n := |rows| - 1;
      GroupRelabel(rows[..n], labels[..n], g, labels'[..n], h);
    }
  }

  /** Total number of rows in groups 0 .. n-1. */
  function GroupedCount<T>(rows: seq<T>, labels: seq<int>, n: nat): nat
    requires |rows| == |labels|
  {
    if n == 0 then 0 else GroupedCount(rows, labels, n - 1) + |Group(rows, labels, n - 1)|
  }

  lemma {:induction false} GroupedCountStep<T>(rows: seq<T>, labels: seq<int>, n: nat)
    requires |rows| == |labels| > 0
    ensures var m := |rows| - 1;
            GroupedCount(rows, labels, n) ==
              GroupedCount(rows[..m], labels[..m], n) + (if 0 <= labels[m] < n then 1 else 0)
  {
    if n > 0 {
      GroupedCountStep(rows, labels, n - 1);
    }
  }

  /** When every label is in range, the groups together hold every row exactly once. */
  lemma {:induction false} GroupsCoverRows<T>(rows: seq<T>, labels: seq<int>, n: nat)
    requires |rows| == |labels| && InRange(labels, n)
    ensures GroupedCount(rows, labels, n) == |rows|
  {
    if rows == [] {
      EmptyGroups(rows, labels, n);
    } else {
      var m := |rows| - 1;
      GroupedCountStep(rows, labels, n);
      assert InRange(labels[..m], n) by {
        forall i | 0 <= i < m ensures 0 <= labels[..m][i] < n {
          assert labels[..m][i] == labels[i];
        }
      }
      GroupsCoverRows(rows[..m], labels[..m], n);
    }
  }

  lemma {:induction false} EmptyGroups<T>(rows: seq<T>, labels: seq<int>, n: nat)
    requires |rows| == |labels| == 0
    ensures GroupedCount(rows, labels, n) == 0
  {
    if n > 0 {
      EmptyGroups(rows, labels, n - 1);
    }
  }

  /** The column `to_categorical` marks for a label: numpy indexes from the end for a
      negative index, so a label in [-n, 0) marks column n + label. */
  function Column(lab: int, n: nat): int
  {
    if lab < 0 then lab + n else lab
  }

  /** `to_categorical(label, n)`: a zero row of width n with a 1 in the label's column;
      a label outside [-n, n) is an index error. */
  function OneHot(lab: int, n: nat): (r: Option<Row>)
    ensures r.Some? <==> -(n as int) <= lab < n
    ensures r.Some? ==> |r.value| == n && 0 <= Column(lab, n) < n
    ensures r.Some? ==> forall k :: 0 <= k < n ==> r.value[k] == if k == Column(lab, n) then 1.0 else 0.0
  {
    if -(n as int) <= lab < n then Some(seq(n, k requires 0 <= k < n => if k == Column(lab, n) then 1.0 else 0.0))
    else None
  }

  /** `argmax` of a non-empty row: a position holding the maximum, the first such. */
  function ArgMax(v: Row): (k: nat)
    requires |v| > 0
    ensures k < |v|
    ensures forall i :: 0 <= i < |v| ==> v[i] <= v[k]
    ensures forall i :: 0 <= i < k ==> v[i] < v[k]
  {
    if |v| == 1 then 0
    else
      var n := |v| - 1;
      var m := ArgMax(v[..n]);
      if v[n] > v[m] then n else m
  }

  /** Taking the argmax of a one-hot row gives back the column it marks: the label
      itself when it is non-negative, n + label when it is negative. */
  lemma ArgMaxOneHot(lab: int, n: nat)
    requires -(n as int) <= lab < n
    ensures ArgMax(OneHot(lab, n).value) == Column(lab, n)
    ensures 0 <= lab ==> ArgMax(OneHot(lab, n).value) == lab
  {
    var h := OneHot(lab, n).value;
    assert h[Column(lab, n)] == 1.0;
  }

  /** The partition key of the multi-condition loss: the argmax of each decoder label row. */
  function ArgMaxLabels(rows: Matrix, n: nat): (ks: seq<int>)
    requires n > 0 && Rect(rows, n)
    ensures |ks| == |rows|
    ensures InRange(ks, n)
  {
    seq(|rows|, i requires 0 <= i < |rows| => ArgMax(rows[i]))
  }

  /** One-hot encoding labels in [-n, n) and then taking the argmax gives the columns
      they mark; labels in [0, n) come back unchanged. */
  lemma ArgMaxLabelsOfOneHot(labels: seq<int>, n: nat)
    requires n > 0 && forall i :: 0 <= i < |labels| ==> -(n as int) <= labels[i] < n
    ensures var rows := seq(|labels|, i requires 0 <= i < |labels| => OneHot(labels[i], n).value);
            Rect(rows, n) &&
            ArgMaxLabels(rows, n) == seq(|labels|, i requires 0 <= i < |labels| => Column(labels[i], n)) &&
            ((forall i :: 0 <= i < |labels| ==> labels[i] >= 0) ==> ArgMaxLabels(rows, n) == labels)
  {
    var rows := seq(|labels|, i requires 0 <= i < |labels| => OneHot(labels[i], n).value);
    forall i | 0 <= i < |labels| ensures ArgMax(rows[i]) == Column(labels[i], n) {
      ArgMaxOneHot(labels[i], n);
    }
  }
}
