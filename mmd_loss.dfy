/** The MMD penalties on the bottleneck layer.  The two-condition models split the batch
    in two by the int-cast condition label and take beta times the MMD of the halves.
    The multi-condition model splits by the argmax of the one-hot decoder labels into
    `n_conditions` groups and accumulates MMDs of adjacent groups in a nested loop. */
module MmdLoss {
  import opened Numerics
  import opened Kernels
  import opened Partition

  /** All labels fall into the two-group range after the int cast. */
  predicate TwoGroupLabels(labels: seq<real>)
  {
    forall i :: 0 <= i < |labels| ==> -1.0 < labels[i] < 2.0
  }

  /** `mmd_loss(real_labels, y_pred)` of the two-condition models: None where the
      partition fails (a label that does not cast to 0 or 1, or a label count that
      differs from the batch size), else beta * MMD(group 0, group 1).  The result is
      NaN exactly when one of the two conditions is absent from the batch, or for the
      rbf kernel on zero-width rows. */
  function TwoGroupMmdLoss(exp: real -> real, kind: KernelMethod, dim: nat, yPred: Matrix,
                           labels: seq<real>, beta: real): (r: Option<Scalar>)
    requires Rect(yPred, dim)
    ensures r.Some? <==> |labels| == |yPred| && TwoGroupLabels(labels)
    ensures r.Some? ==>
              (r.value.NaN? <==>
                 (forall i :: 0 <= i < |labels| ==> TruncToInt(labels[i]) != 0) ||
                 (forall i :: 0 <= i < |labels| ==> TruncToInt(labels[i]) != 1) ||
                 (kind == Rbf && dim == 0))
  {
    var ks := CastLabels(labels);
    assert |yPred| == |labels| && TwoGroupLabels(labels) <==> |yPred| == |ks| && InRange(ks, 2) by {
      forall i | 0 <= i < |labels| ensures -1.0 < labels[i] < 2.0 <==> 0 <= ks[i] < 2 {
        TruncToIntProperties(labels[i], 0);
      }
    }
    match Split(yPred, ks, 2)
    case None => None
    case Some(groups) =>
      GroupRect(yPred, ks, 0, dim);
      GroupRect(yPred, ks, 1, dim);
      GroupEmptyIff(yPred, ks, 0);
      GroupEmptyIff(yPred, ks, 1);
      Some(Scale(beta, Mmd(exp, kind, dim, groups[0], groups[1])))
  }

  /** Which condition is called 0 does not matter: swapping the two integer labels
      leaves the two-condition loss unchanged. */
  lemma TwoGroupMmdLossSwap(exp: real -> real, kind: KernelMethod, dim: nat, yPred: Matrix,
                            labels: seq<real>, beta: real)
    requires Rect(yPred, dim) && |labels| == |yPred|
    requires forall i :: 0 <= i < |labels| ==> labels[i] == 0.0 || labels[i] == 1.0
    ensures var swapped := seq(|labels|, i requires 0 <= i < |labels| => 1.0 - labels[i]);
            TwoGroupMmdLoss(exp, kind, dim, yPred, swapped, beta) ==
            TwoGroupMmdLoss(exp, kind, dim, yPred, labels, beta)
  {
    var swapped := seq(|labels|, i requires 0 <= i < |labels| => 1.0 - labels[i]);
    var ks, ks' := CastLabels(labels), CastLabels(swapped);
    GroupRelabel(yPred, ks, 0, ks', 1);
    GroupRelabel(yPred, ks, 1, ks', 0);
    GroupRect(yPred, ks, 0, dim);
    GroupRect(yPred, ks, 1, dim);
    MmdSymmetric(exp, kind, dim, Group(yPred, ks, 0), Group(yPred, ks, 1));
  }

  /** The (j, j+1) pairs the inner loop visits for outer index i. */
  function InnerPairs(i: nat): (ps: seq<(nat, nat)>)
    ensures |ps| == i
  {
    seq(i, j requires 0 <= j < i => (j, j + 1))
  }

  /** The pairs the nested loop visits, in order, for n groups. */
  function LoopPairs(n: nat): seq<(nat, nat)>
  {
    if n == 0 then [] else LoopPairs(n - 1) + InnerPairs(n - 1)
  }

  /** The loop adds n(n-1)/2 terms. */
  lemma {:induction false} LoopPairsCount(n: nat)
    ensures 2 * |LoopPairs(n)| == n * (n - 1)
  {
    if n > 0 {
      LoopPairsCount(n - 1);
      assert n * (n - 1) == (n - 1) * (n - 2) + 2 * (n - 1);
    }
  }

  /** Every pair visited is adjacent and both its indices are below n. */
  lemma {:induction false} LoopPairsAdjacent(n: nat)
    ensures forall k :: 0 <= k < |LoopPairs(n)| ==>
              LoopPairs(n)[k].1 == LoopPairs(n)[k].0 + 1 && LoopPairs(n)[k].1 < n
  {
    if n > 0 {
      LoopPairsAdjacent(n - 1);
    }
  }

  /** How many times the pair p occurs in ps. */
  function Visits(ps: seq<(nat, nat)>, p: (nat, nat)): nat
  {
    if ps == [] then 0
    else Visits(ps[..|ps| - 1], p) + (if ps[|ps| - 1] == p then 1 else 0)
  }

  lemma {:induction false} VisitsAppend(a: seq<(nat, nat)>, b: seq<(nat, nat)>, p: (nat, nat))
    ensures Visits(a + b, p) == Visits(a, p) + Visits(b, p)
  {
    if b == [] {
      assert a + b == a;
    } else {
      var n := |b| - 1;
      VisitsAppend(a, b[..n], p);
      assert (a + b)[..|a + b| - 1] == a + b[..n];
    }
  }

  /** A pair is visited at least once exactly when it occurs in the sequence. */
  lemma {:induction false} VisitsPositive(ps: seq<(nat, nat)>, p: (nat, nat))
    ensures Visits(ps, p) > 0 <==> p in ps
  {
    if ps != [] {
      var n := |ps| - 1;
      VisitsPositive(ps[..n], p);
      assert ps == ps[..n] + [ps[n]];
    }
  }

  lemma {:induction false} InnerPairsCount(i: nat, j: nat)
    ensures Visits(InnerPairs(i), (j, j + 1)) == if j < i then 1 else 0
  {
    if i > 0 {
      var prev := InnerPairs(i - 1);
      assert InnerPairs(i)[..i - 1] == prev;
      InnerPairsCount(i - 1, j);
    }
  }

  /** The adjacent pair (j, j+1) is visited n-1-j times when j+1 < n, and never otherwise. */
  lemma {:induction false} LoopPairsMultiplicity(n: nat, j: nat)
    ensures Visits(LoopPairs(n), (j, j + 1)) == if j + 1 < n then n - 1 - j else 0
  {
    if n > 0 {
      LoopPairsMultiplicity(n - 1, j);
      InnerPairsCount(n - 1, j);
      VisitsAppend(LoopPairs(n - 1), InnerPairs(n - 1), (j, j + 1));
    }
  }

  /** Pairs drawn from the loop refer to existing groups. */
  ghost predicate PairsWithin(ps: seq<(nat, nat)>, n: nat)
  {
    forall k :: 0 <= k < |ps| ==> ps[k].0 < n && ps[k].1 < n
  }

  ghost predicate GroupsRect(gs: seq<Matrix>, dim: nat)
  {
    forall g :: 0 <= g < |gs| ==> Rect(gs[g], dim)
  }

  /** The MMD between the two groups of a pair, for every pair of existing groups. */
  function MmdTable(exp: real -> real, kind: KernelMethod, dim: nat, gs: seq<Matrix>): (f: ((nat, nat)) -> Scalar)
    requires GroupsRect(gs, dim)
  {
    (p: (nat, nat)) => if p.0 < |gs| && p.1 < |gs| then Mmd(exp, kind, dim, gs[p.0], gs[p.1]) else NaN
  }

  lemma MmdTableAt(exp: real -> real, kind: KernelMethod, dim: nat, gs: seq<Matrix>, i: nat, j: nat)
    requires GroupsRect(gs, dim) && i < |gs| && j < |gs|
    ensures MmdTable(exp, kind, dim, gs)((i, j)) == Mmd(exp, kind, dim, gs[i], gs[j])
  {
  }

  /** The accumulated loss after adding the terms of the pairs `ps` in order, from 0. */
  function PairSum(f: ((nat, nat)) -> Scalar, ps: seq<(nat, nat)>): Scalar
  {
    if ps == [] then Num(0.0) else Add(PairSum(f, ps[..|ps| - 1]), f(ps[|ps| - 1]))
  }

  lemma LoopPairsWithin(n: nat)
    ensures PairsWithin(LoopPairs(n), n)
  {
    LoopPairsAdjacent(n);
  }

  /** The groups of `dynamic_partition` keep the width of the rows. */
  lemma SplitGroupsRect(rows: Matrix, labels: seq<int>, n: nat, dim: nat)
    requires Rect(rows, dim) && Split(rows, labels, n).Some?
    ensures GroupsRect(Split(rows, labels, n).value, dim)
  {
    forall g | 0 <= g < n ensures Rect(Split(rows, labels, n).value[g], dim) {
      GroupRect(rows, labels, g, dim);
    }
  }

  /** The argmax partition of the multi-condition loss. */
  function ConditionGroups(mmdHl: Matrix, decoderLabels: Matrix, nConditions: nat, dim: nat): (gs: seq<Matrix>)
    requires Rect(mmdHl, dim) && Rect(decoderLabels, nConditions)
    requires nConditions > 0 && |decoderLabels| == |mmdHl|
    ensures |gs| == nConditions && GroupsRect(gs, dim)
  {
    var ks := ArgMaxLabels(decoderLabels, nConditions);
    SplitGroupsRect(mmdHl, ks, nConditions, dim);
    Split(mmdHl, ks, nConditions).value
  }

  /** The multi-condition loss as a value: None when the rows and the label rows differ
      in number or there are no conditions to take an argmax over; otherwise beta times the
      MMDs accumulated over `LoopPairs(n)` on the argmax partition. */
  function MultiConditionLoss(exp: real -> real, kind: KernelMethod, dim: nat, mmdHl: Matrix,
                              decoderLabels: Matrix, nConditions: nat, beta: real): (r: Option<Scalar>)
    requires Rect(mmdHl, dim) && Rect(decoderLabels, nConditions)
    ensures r.Some? <==> nConditions > 0 && |decoderLabels| == |mmdHl|
  {
    if nConditions == 0 || |decoderLabels| != |mmdHl| then None
    else
      var gs := ConditionGroups(mmdHl, decoderLabels, nConditions, dim);
      Some(Scale(beta, PairSum(MmdTable(exp, kind, dim, gs), LoopPairs(nConditions))))
  }

  lemma PairSumSnoc(f: ((nat, nat)) -> Scalar, ps: seq<(nat, nat)>, p: (nat, nat))
    ensures PairSum(f, ps + [p]) == Add(PairSum(f, ps), f(p))
  {
    assert (ps + [p])[..|ps|] == ps;
  }

  /** One round of the inner loop adds the term of the pair (j, j+1). */
  lemma InnerStep(f: ((nat, nat)) -> Scalar, i: nat, j: nat)
    requires j < i
    ensures PairSum(f, LoopPairs(i) + InnerPairs(i)[..j + 1]) ==
            Add(PairSum(f, LoopPairs(i) + InnerPairs(i)[..j]), f((j, j + 1)))
  {
    var ps := LoopPairs(i) + InnerPairs(i)[..j];
    assert LoopPairs(i) + InnerPairs(i)[..j + 1] == ps + [(j, j + 1)];
    PairSumSnoc(f, ps, (j, j + 1));
  }

  /** Before its first round the inner loop has visited the pairs of `LoopPairs(i)`. */
  lemma InnerStart(i: nat)
    ensures LoopPairs(i) + InnerPairs(i)[..0] == LoopPairs(i)
  {
    assert InnerPairs(i)[..0] == [];
  }

  /** After its i rounds the inner loop has visited the pairs of `LoopPairs(i + 1)`. */
  lemma InnerDone(i: nat)
    ensures LoopPairs(i) + InnerPairs(i)[..i] == LoopPairs(i + 1)
  {
    assert InnerPairs(i)[..i] == InnerPairs(i);
  }

  /** The nested loop of `_loss_function`: for i in range(n), for j in range(i), add the
      MMD of groups j and j+1. */
  method MultiConditionMmdLoss(exp: real -> real, kind: KernelMethod, dim: nat, mmdHl: Matrix,
                               decoderLabels: Matrix, nConditions: nat, beta: real)
    returns (r: Option<Scalar>)
    requires Rect(mmdHl, dim) && Rect(decoderLabels, nConditions)
    ensures r == MultiConditionLoss(exp, kind, dim, mmdHl, decoderLabels, nConditions, beta)
  {
    if nConditions == 0 || |decoderLabels| != |mmdHl| {
      return None;
    }
    var gs := ConditionGroups(mmdHl, decoderLabels, nConditions, dim);
    ghost var f := MmdTable(exp, kind, dim, gs);
    var loss := Num(0.0);
    var i := 0;
    while i < |gs|
      invariant 0 <= i <= |gs|
      invariant loss == PairSum(f, LoopPairs(i))
    {
      var j := 0;
      InnerStart(i);
      while j < i
        invariant 0 <= j <= i
        invariant loss == PairSum(f, LoopPairs(i) + InnerPairs(i)[..j])
      {
        InnerStep(f, i, j);
        MmdTableAt(exp, kind, dim, gs, j, j + 1);
        loss := Add(loss, Mmd(exp, kind, dim, gs[j], gs[j + 1]));
        j := j + 1;
      }
      InnerDone(i);
      i := i + 1;
    }
    return Some(Scale(beta, loss));
  }

  /** The accumulated loss is NaN exactly when one of its terms is. */
  lemma {:induction false} PairSumNaN(f: ((nat, nat)) -> Scalar, ps: seq<(nat, nat)>)
    ensures PairSum(f, ps).NaN? <==> exists k :: 0 <= k < |ps| && f(ps[k]).NaN?
  {
    if ps != [] {
      var n := |ps| - 1;
      PairSumNaN(f, ps[..n]);
      if PairSum(f, ps[..n]).NaN? {
        var k :| 0 <= k < n && f(ps[..n][k]).NaN?;
        assert ps[k] == ps[..n][k];
      }
      if exists k :: 0 <= k < |ps| && f(ps[k]).NaN? {
        var k :| 0 <= k < |ps| && f(ps[k]).NaN?;
        if k < n {
          assert ps[..n][k] == ps[k];
        }
      }
    }
  }

  /** Every adjacent pair (j, j+1) with j+1 < n is among the visited pairs. */
  lemma LoopPairsVisitAdjacent(n: nat, j: nat)
    requires j + 1 < n
    ensures (j, j + 1) in LoopPairs(n)
  {
    LoopPairsMultiplicity(n, j);
    VisitsPositive(LoopPairs(n), (j, j + 1));
  }

  /** Condition g is absent from the argmax labels. */
  ghost predicate Absent(ks: seq<int>, g: nat)
  {
    forall i :: 0 <= i < |ks| ==> ks[i] != g
  }

  /** Over n groups, the accumulated loop total is NaN exactly when there are at least
      two groups and one of them is empty (or the kernel is rbf on zero-width rows). */
  lemma LoopTotalNaN(exp: real -> real, kind: KernelMethod, dim: nat, gs: seq<Matrix>)
    requires GroupsRect(gs, dim)
    ensures PairSum(MmdTable(exp, kind, dim, gs), LoopPairs(|gs|)).NaN? <==>
            |gs| >= 2 && ((kind == Rbf && dim == 0) || exists g :: 0 <= g < |gs| && gs[g] == [])
  {
    var n := |gs|;
    var f := MmdTable(exp, kind, dim, gs);
    var ps := LoopPairs(n);
    PairSumNaN(f, ps);
    if exists k :: 0 <= k < |ps| && f(ps[k]).NaN? {
      var k :| 0 <= k < |ps| && f(ps[k]).NaN?;
      LoopTermNaN(exp, kind, dim, gs, k);
    }
    if n >= 2 && ((kind == Rbf && dim == 0) || exists g :: 0 <= g < n && gs[g] == []) {
      var g := 0;
      if !(kind == Rbf && dim == 0) {
        g :| 0 <= g < n && gs[g] == [];
      }
      LoopVisitsEmpty(exp, kind, dim, gs, g);
    }
  }

  /** A NaN term of the loop comes from an empty group, or from the rbf kernel on
      zero-width rows; a loop with a term has at least two groups. */
  lemma LoopTermNaN(exp: real -> real, kind: KernelMethod, dim: nat, gs: seq<Matrix>, k: nat)
    requires GroupsRect(gs, dim) && k < |LoopPairs(|gs|)|
    requires MmdTable(exp, kind, dim, gs)(LoopPairs(|gs|)[k]).NaN?
    ensures |gs| >= 2 && ((kind == Rbf && dim == 0) || exists g :: 0 <= g < |gs| && gs[g] == [])
  {
    var n := |gs|;
    LoopPairsAdjacent(n);
    var i, j := LoopPairs(n)[k].0, LoopPairs(n)[k].1;
    assert j == i + 1 && j < n;
    PairTermNaN(exp, kind, dim, gs, i, j);
    if !(kind == Rbf && dim == 0) {
      var g := if gs[i] == [] then i else j;
      assert 0 <= g < n && gs[g] == [];
    }
  }

  /** The term of a pair of existing groups is NaN exactly when one of the two groups
      is empty or the kernel is rbf on zero-width rows. */
  lemma PairTermNaN(exp: real -> real, kind: KernelMethod, dim: nat, gs: seq<Matrix>, i: nat, j: nat)
    requires GroupsRect(gs, dim) && i < |gs| && j < |gs|
    ensures MmdTable(exp, kind, dim, gs)((i, j)).NaN? <==> gs[i] == [] || gs[j] == [] || (kind == Rbf && dim == 0)
  {
    MmdTableAt(exp, kind, dim, gs, i, j);
  }

  /** With at least two groups, the loop visits a pair containing group g; its term is
      NaN when group g is empty or the kernel is rbf on zero-width rows. */
  lemma LoopVisitsEmpty(exp: real -> real, kind: KernelMethod, dim: nat, gs: seq<Matrix>, g: nat)
    requires GroupsRect(gs, dim) && 2 <= |gs| && g < |gs|
    requires gs[g] == [] || (kind == Rbf && dim == 0)
    ensures exists k :: 0 <= k < |LoopPairs(|gs|)| && MmdTable(exp, kind, dim, gs)(LoopPairs(|gs|)[k]).NaN?
  {
    var n := |gs|;
    var ps := LoopPairs(n);
    var j: nat := if g + 1 < n then g else g - 1;
    assert g == j || g == j + 1;
    PairTermNaN(exp, kind, dim, gs, j, j + 1);
    LoopPairsVisitAdjacent(n, j);
    var k :| 0 <= k < |ps| && ps[k] == (j, j + 1);
    assert MmdTable(exp, kind, dim, gs)(ps[k]).NaN?;
  }

  /** For a successful multi-condition loss: the result is NaN exactly when there are at
      least two conditions and some condition is absent from the batch (or the kernel is
      rbf on zero-width rows); with a single condition it is 0. */
  lemma MultiConditionLossNaN(exp: real -> real, kind: KernelMethod, dim: nat, mmdHl: Matrix,
                              decoderLabels: Matrix, nConditions: nat, beta: real)
    requires Rect(mmdHl, dim) && Rect(decoderLabels, nConditions)
    requires nConditions > 0 && |decoderLabels| == |mmdHl|
    ensures var r := MultiConditionLoss(exp, kind, dim, mmdHl, decoderLabels, nConditions, beta);
            var ks := ArgMaxLabels(decoderLabels, nConditions);
            r.Some? &&
            (r.value.NaN? <==>
               nConditions >= 2 &&
               ((kind == Rbf && dim == 0) || exists g: nat :: g < nConditions && Absent(ks, g)))
  {
    var ks := ArgMaxLabels(decoderLabels, nConditions);
    var gs := ConditionGroups(mmdHl, decoderLabels, nConditions, dim);
    LoopTotalNaN(exp, kind, dim, gs);
    forall g: nat | g < nConditions ensures gs[g] == [] <==> Absent(ks, g) {
      GroupEmptyIff(mmdHl, ks, g);
    }
    if exists g :: 0 <= g < nConditions && gs[g] == [] {
      var g :| 0 <= g < nConditions && gs[g] == [];
      assert Absent(ks, g);
    }
    if exists g: nat :: g < nConditions && Absent(ks, g) {
      var g: nat :| g < nConditions && Absent(ks, g);
      assert gs[g] == [];
    }
  }

  /** With two conditions the multi-condition loss coincides with the two-condition
      loss on the argmax labels. */
  lemma MultiConditionTwoGroups(exp: real -> real, kind: KernelMethod, dim: nat, mmdHl: Matrix,
                                decoderLabels: Matrix, beta: real)
    requires Rect(mmdHl, dim) && Rect(decoderLabels, 2) && |decoderLabels| == |mmdHl|
    ensures var ks := ArgMaxLabels(decoderLabels, 2);
            var labels := seq(|ks|, i requires 0 <= i < |ks| => ks[i] as real);
            MultiConditionLoss(exp, kind, dim, mmdHl, decoderLabels, 2, beta) ==
            TwoGroupMmdLoss(exp, kind, dim, mmdHl, labels, beta)
  {
    var ks := ArgMaxLabels(decoderLabels, 2);
    var labels := seq(|ks|, i requires 0 <= i < |ks| => ks[i] as real);
    assert CastLabels(labels) == ks by {
      forall i | 0 <= i < |ks| ensures TruncToInt(labels[i]) == ks[i] {
        TruncToIntProperties(0.0, ks[i]);
      }
    }
    var gs := ConditionGroups(mmdHl, decoderLabels, 2, dim);
    var f := MmdTable(exp, kind, dim, gs);
    assert LoopPairs(2) == [] + [(0, 1)];
    PairSumSnoc(f, [], (0, 1));
  }

  /** The total of a loop whose round i (for i = 1 .. |c|) adds c[0] + ... + c[i-1]. */
  function Accumulated(c: seq<real>): real
  {
    if c == [] then 0.0 else Accumulated(c[..|c| - 1]) + Sum(c)
  }

  /** The term the loop adds for the adjacent pair (j, j+1). */
  function AdjacentTerm(f: ((nat, nat)) -> Scalar, j: nat): Scalar
  {
    f((j, j + 1))
  }

  /** Within round m, after its first j additions the total has grown by c[0] + ... + c[j-1]. */
  lemma {:induction false} InnerRoundSum(f: ((nat, nat)) -> Scalar, c: seq<real>, m: nat, j: nat, base: real)
    requires j <= m <= |c|
    requires forall k :: 0 <= k < |c| ==> AdjacentTerm(f, k) == Num(c[k])
    requires PairSum(f, LoopPairs(m)) == Num(base)
    ensures PairSum(f, LoopPairs(m) + InnerPairs(m)[..j]) == Num(base + Sum(c[..j]))
  {
    if j == 0 {
      InnerStart(m);
    } else {
      InnerRoundSum(f, c, m, j - 1, base);
      InnerStep(f, m, j - 1);
      assert AdjacentTerm(f, j - 1) == Num(c[j - 1]);
      assert c[..j][..j - 1] == c[..j - 1];
    }
  }

  /** When the adjacent terms are the finite values c, the first m+1 rounds of the
      loop total `Accumulated(c[..m])`. */
  lemma {:induction false} LoopSumAccumulated(f: ((nat, nat)) -> Scalar, c: seq<real>, m: nat)
    requires m <= |c|
    requires forall j :: 0 <= j < |c| ==> AdjacentTerm(f, j) == Num(c[j])
    ensures PairSum(f, LoopPairs(m + 1)) == Num(Accumulated(c[..m]))
  {
    if m == 0 {
      assert LoopPairs(1) == [];
    } else {
      LoopSumAccumulated(f, c, m - 1);
      InnerRoundSum(f, c, m, m, Accumulated(c[..m - 1]));
      InnerDone(m);
      assert c[..m][..m - 1] == c[..m - 1];
    }
  }

  /** The MMD of the adjacent groups j and j+1. */
  function AdjacentMmd(exp: real -> real, kind: KernelMethod, dim: nat, gs: seq<Matrix>, j: nat): Scalar
    requires GroupsRect(gs, dim) && j + 1 < |gs|
  {
    Mmd(exp, kind, dim, gs[j], gs[j + 1])
  }

  lemma AdjacentTerms(exp: real -> real, kind: KernelMethod, dim: nat, gs: seq<Matrix>, c: seq<real>)
    requires GroupsRect(gs, dim) && |gs| > 0 && |c| == |gs| - 1
    requires forall j :: 0 <= j < |c| ==> AdjacentMmd(exp, kind, dim, gs, j) == Num(c[j])
    ensures forall j :: 0 <= j < |c| ==> AdjacentTerm(MmdTable(exp, kind, dim, gs), j) == Num(c[j])
  {
    forall j | 0 <= j < |c| ensures AdjacentTerm(MmdTable(exp, kind, dim, gs), j) == Num(c[j]) {
      AdjacentTermAt(exp, kind, dim, gs, j);
    }
  }

  lemma AdjacentTermAt(exp: real -> real, kind: KernelMethod, dim: nat, gs: seq<Matrix>, j: nat)
    requires GroupsRect(gs, dim) && j + 1 < |gs|
    ensures AdjacentTerm(MmdTable(exp, kind, dim, gs), j) == AdjacentMmd(exp, kind, dim, gs, j)
  {
    MmdTableAt(exp, kind, dim, gs, j, j + 1);
  }

  /** Over groups whose adjacent MMDs are the finite values c, the loop total is
      `Accumulated(c)`. */
  lemma LoopTotalAccumulated(exp: real -> real, kind: KernelMethod, dim: nat, gs: seq<Matrix>, c: seq<real>)
    requires GroupsRect(gs, dim) && |gs| > 0 && |c| == |gs| - 1
    requires forall j :: 0 <= j < |c| ==> AdjacentMmd(exp, kind, dim, gs, j) == Num(c[j])
    ensures PairSum(MmdTable(exp, kind, dim, gs), LoopPairs(|gs|)) == Num(Accumulated(c))
  {
    AdjacentTerms(exp, kind, dim, gs, c);
    LoopSumAccumulated(MmdTable(exp, kind, dim, gs), c, |c|);
    assert c[..|c|] == c;
  }


  /** Sum over j of (|c| - j) * c[j]: each value weighted by the number of loop rounds
      that add it. */
  function Weighted(c: seq<real>): real
  {
    if c == [] then 0.0 else Mul(|c| as real, c[0]) + Weighted(c[1..])
  }

  lemma {:induction false} WeightedSnoc(c: seq<real>, x: real)
    ensures Weighted(c + [x]) == Weighted(c) + Sum(c) + x
  {
    if c == [] {
      assert Weighted([x]) == Mul(1.0, x) + Weighted([]);
    } else {
      assert (c + [x])[1..] == c[1..] + [x];
      WeightedSnoc(c[1..], x);
      SumAppend([c[0]], c[1..]);
      assert [c[0]] + c[1..] == c;
      assert Sum([c[0]]) == c[0] by { assert [c[0]][..0] == []; }
      assert Mul((|c| + 1) as real, c[0]) == Mul(|c| as real, c[0]) + c[0];
    }
  }

  /** In the accumulated total, c[j] is counted |c| - j times. */
  lemma {:induction false} AccumulatedWeights(c: seq<real>)
    ensures Accumulated(c) == Weighted(c)
  {
    if c != [] {
      var k := |c| - 1;
      AccumulatedWeights(c[..k]);
      WeightedSnoc(c[..k], c[k]);
      assert c[..k] + [c[k]] == c;
    }
  }

  /** Over groups whose adjacent MMDs are the finite values c, the loop total is the
      weighted sum of c. */
  lemma LoopTotalWeighted(exp: real -> real, kind: KernelMethod, dim: nat, gs: seq<Matrix>, c: seq<real>)
    requires GroupsRect(gs, dim) && |gs| > 0 && |c| == |gs| - 1
    requires forall j :: 0 <= j < |c| ==> AdjacentMmd(exp, kind, dim, gs, j) == Num(c[j])
    ensures PairSum(MmdTable(exp, kind, dim, gs), LoopPairs(|gs|)) == Num(Weighted(c))
  {
    LoopTotalAccumulated(exp, kind, dim, gs, c);
    AccumulatedWeights(c);
  }

  /** The multi-condition loss in closed form: when the MMDs of adjacent groups are the
      finite values c, the loss is the sum over j of (n-1-j) * c[j], scaled by beta. */
  lemma MultiConditionLossWeighted(exp: real -> real, kind: KernelMethod, dim: nat, mmdHl: Matrix,
                                   decoderLabels: Matrix, nConditions: nat, beta: real, c: seq<real>)
    requires Rect(mmdHl, dim) && Rect(decoderLabels, nConditions)
    requires nConditions > 0 && |decoderLabels| == |mmdHl| && |c| == nConditions - 1
    requires var gs := ConditionGroups(mmdHl, decoderLabels, nConditions, dim);
             forall j :: 0 <= j < |c| ==> AdjacentMmd(exp, kind, dim, gs, j) == Num(c[j])
    ensures MultiConditionLoss(exp, kind, dim, mmdHl, decoderLabels, nConditions, beta) ==
            Some(Scale(beta, Num(Weighted(c))))
  {
    var gs := ConditionGroups(mmdHl, decoderLabels, nConditions, dim);
    LoopTotalWeighted(exp, kind, dim, gs, c);
  }
}
