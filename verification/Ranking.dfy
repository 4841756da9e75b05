/**
 Scores to weights (rlvr/scoring/eval_engine.py, rank_weights and EvalEngine.get_weights).

 The source sorts the positive scores and writes `decay ** rank` through the sorted
 index array. `Rank` counts instead: how many positive scores beat this one. The two are
 proved equal, and the promises about payouts are proved of the counting form.
 */
module Ranking {
  import opened Seqs

  // ---- The counting form -----------------------------------------------------------

  /** v is paid ahead of u: a better score, or the same score at a lower uid. */
  predicate Beats(scores: seq<real>, v: nat, u: nat)
    requires v < |scores| && u < |scores|
  {
    scores[v] > scores[u] || (scores[v] == scores[u] && v < u)
  }

  function Positive(scores: seq<real>): set<nat> {
    set u: nat | u < |scores| && scores[u] > 0.0
  }

  function Ahead(scores: seq<real>, u: nat): set<nat>
    requires u < |scores|
  {
    set v: nat | v < |scores| && scores[v] > 0.0 && Beats(scores, v, u)
  }

  function Rank(scores: seq<real>, u: nat): nat
    requires u < |scores|
  {
    |Ahead(scores, u)|
  }

  function Pow(base: real, n: nat): real {
    if n == 0 then 1.0 else base * Pow(base, n - 1)
  }

  /** `decay ** rank` for every positive score, zero elsewhere. */
  function ByCounting(scores: seq<real>, decay: real): (w: seq<real>)
    ensures |w| == |scores|
  {
    seq(|scores|, u requires 0 <= u < |scores| => if scores[u] > 0.0 then Pow(decay, Rank(scores, u)) else 0.0)
  }

  function Sum(s: seq<real>): real {
    if s == [] then 0.0 else Sum(s[..|s| - 1]) + s[|s| - 1]
  }

  /** 1 + decay + ... + decay ** (n - 1). */
  function Geometric(decay: real, n: nat): real {
    if n == 0 then 0.0 else Geometric(decay, n - 1) + Pow(decay, n - 1)
  }

  // ---- Sorting ----------------------------------------------------------------------

  ghost predicate Pair(scores: seq<real>, order: seq<nat>, i: int, j: int) {
    0 <= i < j < |order| && order[i] < |scores| && order[j] < |scores| ==> Beats(scores, order[i], order[j])
  }

  ghost predicate BestFirst(scores: seq<real>, order: seq<nat>) {
    && (forall i :: 0 <= i < |order| ==> order[i] < |scores|)
    && (forall i, j :: Pair(scores, order, i, j))
  }

  lemma BestFirstHasNoDup(scores: seq<real>, order: seq<nat>)
    requires BestFirst(scores, order)
    ensures NoDup(order)
  {
    forall i, j | 0 <= i < j < |order| ensures order[i] != order[j] {
      assert Pair(scores, order, i, j);
    }
  }

  /** Where u belongs in a best-first order: before the first entry it beats. */
  function Place(scores: seq<real>, order: seq<nat>, u: nat, from: nat := 0): (p: nat)
    requires u < |scores| && from <= |order|
    requires forall i :: 0 <= i < |order| ==> order[i] < |scores|
    ensures from <= p <= |order|
    ensures forall i :: from <= i < p ==> !Beats(scores, u, order[i])
    ensures p < |order| ==> Beats(scores, u, order[p])
    decreases |order| - from
  {
    if from == |order| || Beats(scores, u, order[from]) then from
    else Place(scores, order, u, from + 1)
  }

  function Insert(scores: seq<real>, order: seq<nat>, u: nat): (r: seq<nat>)
    requires u < |scores|
    requires forall i :: 0 <= i < |order| ==> order[i] < |scores|
    ensures forall i :: 0 <= i < |r| ==> r[i] < |scores|
  {
    var p := Place(scores, order, u);
    order[..p] + [u] + order[p..]
  }

  lemma InsertMembers(scores: seq<real>, order: seq<nat>, u: nat)
    requires u < |scores|
    requires forall i :: 0 <= i < |order| ==> order[i] < |scores|
    ensures ToSet(Insert(scores, order, u)) == ToSet(order) + {u}
  {
    var p := Place(scores, order, u);
    assert order == order[..p] + order[p..];
  }

  lemma InsertKeepsOrder(scores: seq<real>, order: seq<nat>, u: nat)
    requires u < |scores| && BestFirst(scores, order) && u !in order
    ensures BestFirst(scores, Insert(scores, order, u))
  {
    var p, r := Place(scores, order, u), Insert(scores, order, u);
    forall i, j ensures Pair(scores, r, i, j) {
      if 0 <= i < j < |r| {
        // The same two entries in the old order, and the old neighbour of the new one.
        assert Pair(scores, order, if i < p then i else i - 1, if j < p then j else j - 1);
        assert Pair(scores, order, p, j - 1);
        assert j == p ==> !Beats(scores, u, order[i]);
      }
    }
  }

  /** `positive[np.lexsort((positive, -scores[positive]))]`: the positive uids below n,
      by score descending and then by uid. */
  function Sorted(scores: seq<real>, n: nat): (order: seq<nat>)
    requires n <= |scores|
    ensures forall i :: 0 <= i < |order| ==> order[i] < |scores|
  {
    if n == 0 then []
    else
      var before := Sorted(scores, n - 1);
      if scores[n - 1] > 0.0 then Insert(scores, before, n - 1) else before
  }

  lemma {:induction false} SortedMembers(scores: seq<real>, n: nat)
    requires n <= |scores|
    ensures ToSet(Sorted(scores, n)) == set u: nat | u < n && scores[u] > 0.0
  {
    if n != 0 {
      SortedMembers(scores, n - 1);
      if scores[n - 1] > 0.0 {
        InsertMembers(scores, Sorted(scores, n - 1), n - 1);
      }
    }
  }

  lemma {:induction false} SortedIsBestFirst(scores: seq<real>, n: nat)
    requires n <= |scores|
    ensures BestFirst(scores, Sorted(scores, n))
  {
    if n != 0 {
      SortedIsBestFirst(scores, n - 1);
      if scores[n - 1] > 0.0 {
        var before := Sorted(scores, n - 1);
        assert n - 1 !in before by {
          SortedMembers(scores, n - 1);
          assert n - 1 !in ToSet(before);
        }
        InsertKeepsOrder(scores, before, n - 1);
      }
    }
  }

  /** In a best-first order of all positive uids, position is the number of uids ahead. */
  lemma PositionIsRank(scores: seq<real>, order: seq<nat>, i: nat)
    requires BestFirst(scores, order)
    requires ToSet(order) == Positive(scores)
    requires i < |order|
    ensures Rank(scores, order[i]) == i
  {
    var front := ToSet(order[..i]);
    forall v ensures v in Ahead(scores, order[i]) <==> v in front {
      if v in Ahead(scores, order[i]) {
        assert v in ToSet(order);
        var j :| 0 <= j < |order| && order[j] == v;
        assert Pair(scores, order, i, j);
        assert j < i;
      }
      if v in front {
        var j :| 0 <= j < i && order[j] == v;
        assert v in ToSet(order);
        assert Pair(scores, order, j, i);
      }
    }
    assert Ahead(scores, order[i]) == front;
    BestFirstHasNoDup(scores, order);
    CardNoDup(order[..i]);
  }

  // ---- Sums ---------------------------------------------------------------------------

  lemma {:induction false} SumUpdate(s: seq<real>, u: nat, x: real)
    requires u < |s|
    ensures Sum(s[u := x]) == Sum(s) - s[u] + x
  {
    var n := |s| - 1;
    if u == n {
      assert s[u := x][..n] == s[..n];
    } else {
      assert s[u := x][..n] == s[..n][u := x];
      SumUpdate(s[..n], u, x);
    }
  }

  lemma {:induction false} SumZero(s: seq<real>)
    requires forall i :: 0 <= i < |s| ==> s[i] == 0.0
    ensures Sum(s) == 0.0
  {
    if s != [] { SumZero(s[..|s| - 1]); }
  }

  lemma {:induction false} SumScaled(s: seq<real>, t: seq<real>, total: real)
    requires total != 0.0
    requires |s| == |t| && forall i :: 0 <= i < |s| ==> t[i] == s[i] / total
    ensures Sum(t) == Sum(s) / total
  {
    if s != [] {
      SumScaled(s[..|s| - 1], t[..|s| - 1], total);
    }
  }

  lemma Shrinks(decay: real, x: real)
    requires 0.0 < decay <= 1.0 && 0.0 < x
    ensures 0.0 < decay * x <= x
  {
    assert (1.0 - decay) * x >= 0.0;
  }

  lemma {:induction false} PowInUnit(decay: real, n: nat)
    requires 0.0 < decay <= 1.0
    ensures 0.0 < Pow(decay, n) <= 1.0
  {
    if n != 0 {
      PowInUnit(decay, n - 1);
      Shrinks(decay, Pow(decay, n - 1));
    }
  }

  lemma {:induction false} PowAntitone(decay: real, m: nat, n: nat)
    requires 0.0 < decay <= 1.0 && m <= n
    ensures Pow(decay, n) <= Pow(decay, m)
  {
    if m < n {
      PowAntitone(decay, m, n - 1);
      PowInUnit(decay, n - 1);
      Shrinks(decay, Pow(decay, n - 1));
    }
  }

  lemma {:induction false} GeometricMonotone(decay: real, m: nat, n: nat)
    requires 0.0 < decay <= 1.0 && m <= n
    ensures 0.0 <= Geometric(decay, m) <= Geometric(decay, n)
    ensures n > 0 ==> Geometric(decay, n) > 0.0
  {
    if m < n {
      GeometricMonotone(decay, m, n - 1);
      PowInUnit(decay, n - 1);
    } else if n > 0 {
      GeometricMonotone(decay, m - 1, n - 1);
      PowInUnit(decay, n - 1);
    }
  }

  // ---- The source's operations ----------------------------------------------------------

  /** The counting weights of the first i uids of a best-first order, zero elsewhere. */
  ghost function Partial(scores: seq<real>, decay: real, order: seq<nat>, i: nat): (w: seq<real>)
    requires i <= |order|
    ensures |w| == |scores|
  {
    seq(|scores|, u requires 0 <= u < |scores| => if u in order[..i] then Pow(decay, Rank(scores, u)) else 0.0)
  }

  lemma PartialStep(scores: seq<real>, decay: real, order: seq<nat>, i: nat)
    requires i < |order|
    requires BestFirst(scores, order)
    requires ToSet(order) == Positive(scores)
    ensures var before := Partial(scores, decay, order, i);
            && before[order[i]] == 0.0
            && Partial(scores, decay, order, i + 1) == before[order[i] := Pow(decay, i)]
  {
    PositionIsRank(scores, order, i);
    var u := order[i];
    assert order[..i + 1] == order[..i] + [u];
    assert u !in order[..i] by {
      BestFirstHasNoDup(scores, order);
    }
  }

  lemma PartialEnds(scores: seq<real>, decay: real, order: seq<nat>)
    requires ToSet(order) == Positive(scores)
    ensures Partial(scores, decay, order, |order|) == ByCounting(scores, decay)
  {
    assert order[..|order|] == order;
    forall u: nat | u < |scores| ensures u in order <==> scores[u] > 0.0 {
      assert u in ToSet(order) <==> u in Positive(scores);
    }
  }

  /** `rank_weights`: writes decay powers through the sorted index array. The result is
      the counting form, whatever the scores. */
  method RankWeights(scores: seq<real>, decay: real) returns (weights: array<real>)
    ensures weights[..] == ByCounting(scores, decay)
  {
    weights := new real[|scores|](_ => 0.0);
    var order := Sorted(scores, |scores|);
    SortedIsBestFirst(scores, |scores|);
    SortedMembers(scores, |scores|);
    assert ToSet(order) == Positive(scores);
    for i := 0 to |order|
      invariant weights[..] == Partial(scores, decay, order, i)
    {
      PartialStep(scores, decay, order, i);
      weights[order[i]] := Pow(decay, i);
    }
    PartialEnds(scores, decay, order);
  }

  lemma {:induction false} PartialTotal(scores: seq<real>, decay: real, order: seq<nat>, i: nat)
    requires i <= |order|
    requires BestFirst(scores, order)
    requires ToSet(order) == Positive(scores)
    ensures Sum(Partial(scores, decay, order, i)) == Geometric(decay, i)
  {
    if i == 0 {
      SumZero(Partial(scores, decay, order, 0));
    } else {
      PartialTotal(scores, decay, order, i - 1);
      PartialStep(scores, decay, order, i - 1);
      SumUpdate(Partial(scores, decay, order, i - 1), order[i - 1], Pow(decay, i - 1));
    }
  }

  /** The raw weights always add up to 1 + decay + ..., one term per positive score. */
  lemma TotalIsGeometric(scores: seq<real>, decay: real)
    ensures Sum(ByCounting(scores, decay)) == Geometric(decay, |Positive(scores)|)
  {
    var order := Sorted(scores, |scores|);
    SortedIsBestFirst(scores, |scores|);
    SortedMembers(scores, |scores|);
    assert ToSet(order) == Positive(scores);
    BestFirstHasNoDup(scores, order);
    CardNoDup(order);
    PartialTotal(scores, decay, order, |order|);
    PartialEnds(scores, decay, order);
  }

  function ZeroPad(scores: seq<real>, n: nat): (r: seq<real>)
    ensures |r| == n
  {
    if n <= |scores| then scores[..n] else scores + seq(n - |scores|, _ => 0.0)
  }

  function Clip(scores: seq<real>): (r: seq<real>)
    ensures |r| == |scores| && forall i :: 0 <= i < |r| ==> r[i] >= 0.0
  {
    seq(|scores|, i requires 0 <= i < |scores| => if scores[i] < 0.0 then 0.0 else scores[i])
  }

  /** What `get_weights` returns, by counting: each share of the aligned, clamped vector. */
  function Weights(scores: seq<real>, n: Option<nat>, rankDecay: Option<real>): (w: seq<real>)
    ensures |w| == if n.Some? then n.value else |scores|
  {
    var aligned := Clip(if n.Some? then ZeroPad(scores, n.value) else scores);
    var raw := if rankDecay.Some? then ByCounting(aligned, rankDecay.value) else aligned;
    Normalize(raw)
  }

  function Normalize(raw: seq<real>): (w: seq<real>)
    ensures |w| == |raw|
  {
    var total := Sum(raw);
    if total <= 0.0 then seq(|raw|, _ => 0.0)
    else seq(|raw|, i requires 0 <= i < |raw| => raw[i] / total)
  }

  method GetWeights(scores: seq<real>, n: Option<nat>, rankDecay: Option<real>) returns (weights: seq<real>)
    ensures weights == Weights(scores, n, rankDecay)
  {
    var s := scores;
    if n.Some? && n.value != |s| {
      var aligned := new real[n.value](_ => 0.0);
      for i := 0 to Min(n.value, |s|)
        invariant forall j :: 0 <= j < i ==> aligned[j] == s[j]
        invariant forall j :: i <= j < n.value ==> aligned[j] == 0.0
      {
        aligned[i] := s[i];
      }
      s := aligned[..];
      assert s == ZeroPad(scores, n.value);
    }
    assert n.Some? && n.value == |scores| ==> ZeroPad(scores, n.value) == scores;
    s := Clip(s);
    if rankDecay.Some? {
      var ranked := RankWeights(s, rankDecay.value);
      s := ranked[..];
    }
    weights := Normalize(s);
  }

  // ---- What the payout promises -----------------------------------------------------------

  /** The weights are a distribution over the metagraph, or all zero. They are all zero
      exactly when no aligned score is positive. */
  lemma WeightsAreADistribution(scores: seq<real>, n: Option<nat>, decay: real)
    requires 0.0 < decay <= 1.0
    ensures var w := Weights(scores, n, Some(decay));
            var aligned := Clip(if n.Some? then ZeroPad(scores, n.value) else scores);
            && (forall u :: 0 <= u < |w| ==> 0.0 <= w[u])
            && (Positive(aligned) == {} ==> forall u :: 0 <= u < |w| ==> w[u] == 0.0)
            && (Positive(aligned) != {} ==> Sum(w) == 1.0)
  {
    SharesAddUp(Clip(if n.Some? then ZeroPad(scores, n.value) else scores), decay);
  }

  lemma SharesAddUp(s: seq<real>, decay: real)
    requires 0.0 < decay <= 1.0
    ensures var w := Normalize(ByCounting(s, decay));
            && (forall u :: 0 <= u < |w| ==> 0.0 <= w[u])
            && (Positive(s) == {} ==> forall u :: 0 <= u < |w| ==> w[u] == 0.0)
            && (Positive(s) != {} ==> Sum(w) == 1.0)
  {
    var raw := ByCounting(s, decay);
    var w := Normalize(raw);
    forall u | 0 <= u < |w| ensures w[u] >= 0.0 && (u !in Positive(s) ==> w[u] == 0.0) {
      Share(s, decay, u);
    }
    if Positive(s) != {} {
      TotalIsGeometric(s, decay);
      GeometricMonotone(decay, 0, |Positive(s)|);
      assert Sum(raw) > 0.0;
      SumScaled(raw, w, Sum(raw));
      SelfQuotient(Sum(raw));
    }
  }

  lemma Quotient(x: real, total: real)
    requires x >= 0.0 && total > 0.0
    ensures x / total >= 0.0
  {
  }

  lemma SelfQuotient(x: real)
    requires x > 0.0
    ensures x / x == 1.0
  {
  }

  lemma QuotientOrder(x: real, y: real, a: real, b: real)
    requires 0.0 <= x <= y && 0.0 < b <= a
    ensures x / a <= y / b
  {
    Quotient(x, a);
    Quotient(y, b);
    var p := x / a;
    assert p * a == x;
    assert p * b <= p * a;
    assert (y - p * b) / b >= 0.0 by { Quotient(y - p * b, b); }
    assert (y - p * b) / b == y / b - p;
  }

  /** Only the order of the positive scores matters: any two score vectors that agree on
      who is positive and on every comparison between positives get the same weights. */
  lemma OrderDecidesWeights(s: seq<real>, t: seq<real>, decay: real)
    requires |s| == |t|
    requires forall u :: 0 <= u < |s| ==> (s[u] > 0.0 <==> t[u] > 0.0)
    requires forall u, v :: 0 <= u < |s| && 0 <= v < |s| && s[u] > 0.0 && s[v] > 0.0 ==> (s[u] < s[v] <==> t[u] < t[v])
    ensures ByCounting(s, decay) == ByCounting(t, decay)
  {
    forall u | 0 <= u < |s| && s[u] > 0.0 ensures Ahead(s, u) == Ahead(t, u) {
      forall v: nat | v < |s| && s[v] > 0.0 ensures Beats(s, v, u) <==> Beats(t, v, u) {
      }
    }
  }

  /** Rescaling all positive scores by a strictly increasing map leaves the weights alone. */
  lemma RescalingKeepsWeights(s: seq<real>, t: seq<real>, g: real -> real, decay: real)
    requires |s| == |t|
    requires forall x, y :: 0.0 < x < y ==> g(x) < g(y)
    requires forall u :: 0 <= u < |s| ==> if s[u] > 0.0 then t[u] == g(s[u]) && t[u] > 0.0 else t[u] <= 0.0
    ensures Normalize(ByCounting(s, decay)) == Normalize(ByCounting(t, decay))
  {
    forall u, v | 0 <= u < |s| && 0 <= v < |s| && s[u] > 0.0 && s[v] > 0.0 ensures s[u] < s[v] <==> t[u] < t[v] {
      assert s[v] < s[u] ==> g(s[v]) < g(s[u]);
    }
    OrderDecidesWeights(s, t, decay);
  }

  /** Raising one miner's score never lowers its own weight and never raises anyone else's. */
  lemma RaisingAScore(s: seq<real>, u: nat, x: real, decay: real, v: nat)
    requires 0.0 < decay <= 1.0
    requires u < |s| && v < |s| && x >= s[u]
    ensures var w, w' := Normalize(ByCounting(s, decay)), Normalize(ByCounting(s[u := x], decay));
            if v == u then w[v] <= w'[v] else w'[v] <= w[v]
  {
    var t := s[u := x];
    RaiseMovesRanks(s, u, x);
    Share(s, decay, v);
    Share(t, decay, v);
    GeometricMonotone(decay, 0, |Positive(s)|);
    GeometricMonotone(decay, |Positive(s)|, |Positive(t)|);
    if s[v] > 0.0 && t[v] > 0.0 {
      assert v in Positive(s) && v in Positive(t);
      PowInUnit(decay, Rank(s, v));
      PowInUnit(decay, Rank(t, v));
      if v == u {
        assert Positive(t) == Positive(s);
        PowAntitone(decay, Rank(t, v), Rank(s, v));
        QuotientOrder(Pow(decay, Rank(s, v)), Pow(decay, Rank(t, v)),
                      Geometric(decay, |Positive(s)|), Geometric(decay, |Positive(t)|));
      } else {
        PowAntitone(decay, Rank(s, v), Rank(t, v));
        QuotientOrder(Pow(decay, Rank(t, v)), Pow(decay, Rank(s, v)),
                      Geometric(decay, |Positive(t)|), Geometric(decay, |Positive(s)|));
      }
    }
  }

  /** What `get_weights` ranks: the scores aligned to the metagraph, negatives cut off. */
  function AlignedTo(scores: seq<real>, n: Option<nat>): (r: seq<real>)
    ensures forall i :: 0 <= i < |r| ==> r[i] >= 0.0
  {
    Clip(if n.Some? then ZeroPad(scores, n.value) else scores)
  }

  /** The payout only looks at the order of the positive scores. */
  lemma PayoutIgnoresScale(s: seq<real>, t: seq<real>, g: real -> real, n: Option<nat>, decay: real)
    requires |s| == |t|
    requires forall x, y :: 0.0 < x < y ==> g(x) < g(y)
    requires forall u :: 0 <= u < |s| ==> if s[u] > 0.0 then t[u] == g(s[u]) && t[u] > 0.0 else t[u] <= 0.0
    ensures Weights(s, n, Some(decay)) == Weights(t, n, Some(decay))
  {
    var a, b := AlignedTo(s, n), AlignedTo(t, n);
    assert forall u :: 0 <= u < |a| ==> if a[u] > 0.0 then b[u] == g(a[u]) && b[u] > 0.0 else b[u] <= 0.0;
    hide Normalize, ByCounting;
    RescalingKeepsWeights(a, b, g, decay);
  }

  /** A miner whose score rises never gets less, and nobody else ever gets more from it. */
  lemma PayoutRewardsARise(s: seq<real>, u: nat, x: real, n: Option<nat>, decay: real, v: nat)
    requires 0.0 < decay <= 1.0 && u < |s| && x >= s[u]
    requires v < |Weights(s, n, Some(decay))|
    ensures var w, w' := Weights(s, n, Some(decay)), Weights(s[u := x], n, Some(decay));
            if v == u then w[v] <= w'[v] else w'[v] <= w[v]
  {
    var a, b := AlignedTo(s, n), AlignedTo(s[u := x], n);
    var clipped := if x < 0.0 then 0.0 else x;
    assert b == if u < |a| then a[u := clipped] else a;
    hide Normalize, ByCounting;
    if u < |a| {
      RaisingAScore(a, u, clipped, decay, v);
    }
  }

  /** One miner's share, in closed form. */
  lemma Share(s: seq<real>, decay: real, v: nat)
    requires 0.0 < decay <= 1.0
    requires v < |s|
    ensures var w := Normalize(ByCounting(s, decay))[v];
            if s[v] > 0.0 then
              && Geometric(decay, |Positive(s)|) > 0.0
              && w == Pow(decay, Rank(s, v)) / Geometric(decay, |Positive(s)|)
              && w >= 0.0
            else w == 0.0
  {
    TotalIsGeometric(s, decay);
    GeometricMonotone(decay, 0, |Positive(s)|);
    if s[v] > 0.0 {
      assert v in Positive(s);
      PowInUnit(decay, Rank(s, v));
      Quotient(Pow(decay, Rank(s, v)), Geometric(decay, |Positive(s)|));
    } else if Sum(ByCounting(s, decay)) > 0.0 {
      assert 0.0 / Sum(ByCounting(s, decay)) == 0.0;
    }
  }

  /** The score a miner is paid for: nothing beyond the score vector. */
  function ScoreOf(scores: seq<real>, u: nat): real {
    if u < |scores| then scores[u] else 0.0
  }

  /** v is paid ahead of u: it has the better score, or the same and the lower uid. */
  predicate PaidAhead(scores: seq<real>, v: nat, u: nat) {
    ScoreOf(scores, v) > ScoreOf(scores, u) || (ScoreOf(scores, v) == ScoreOf(scores, u) && v < u)
  }

  lemma AlignedScore(scores: seq<real>, n: Option<nat>, u: nat)
    requires u < |AlignedTo(scores, n)|
    ensures AlignedTo(scores, n)[u] == if ScoreOf(scores, u) < 0.0 then 0.0 else ScoreOf(scores, u)
  {
  }

  /** Nobody stands between the two. */
  ghost predicate Adjacent(s: seq<real>, v: nat, u: nat)
    requires v < |s| && u < |s|
  {
    forall x: nat :: x < |s| ==> !(Beats(s, v, x) && Beats(s, x, u))
  }

  ghost predicate PaidNext(scores: seq<real>, count: nat, v: nat, u: nat) {
    forall x: nat :: x < count ==> !(PaidAhead(scores, v, x) && PaidAhead(scores, x, u))
  }

  lemma AheadGrows(s: seq<real>, v: nat, u: nat)
    requires v < |s| && u < |s| && s[v] > 0.0 && s[u] > 0.0 && Beats(s, v, u)
    ensures Rank(s, u) >= Rank(s, v) + 1
    ensures Adjacent(s, v, u) ==> Rank(s, u) == Rank(s, v) + 1
  {
    assert Ahead(s, v) + {v} <= Ahead(s, u);
    Subset(Ahead(s, v) + {v}, Ahead(s, u));
    if Adjacent(s, v, u) {
      assert Ahead(s, u) == Ahead(s, v) + {v};
    }
  }

  lemma ScaledQuotient(a: real, x: real, g: real)
    requires g > 0.0
    ensures a * x / g == a * (x / g)
  {
  }

  /** The ladder of payouts: a miner with no positive score gets nothing, everyone else something,
      at most `decay` times what anyone paid ahead of it gets, and exactly that much of what the
      next one ahead gets. Together with the sum this determines every weight. */
  lemma PayoutIsALadder(scores: seq<real>, n: Option<nat>, decay: real, v: nat, u: nat)
    requires 0.0 < decay <= 1.0
    requires v < |Weights(scores, n, Some(decay))| && u < |Weights(scores, n, Some(decay))|
    ensures var w := Weights(scores, n, Some(decay));
            && (ScoreOf(scores, u) <= 0.0 ==> w[u] == 0.0)
            && (ScoreOf(scores, u) > 0.0 ==> w[u] > 0.0)
            && (ScoreOf(scores, u) > 0.0 && PaidAhead(scores, v, u) ==> w[u] <= decay * w[v])
            && (ScoreOf(scores, u) > 0.0 && PaidAhead(scores, v, u) && PaidNext(scores, |w|, v, u) ==>
                  w[u] == decay * w[v])
  {
    hide *;
    var s := AlignedTo(scores, n);
    WeightsOf(scores, n, decay);
    AlignedOrder(scores, n, v, u);
    SharePositive(s, decay, u);
    if ScoreOf(scores, u) > 0.0 && PaidAhead(scores, v, u) {
      Ladder(s, decay, v, u);
      AdjacentIsNext(scores, n, v, u);
    }
  }

  lemma WeightsOf(scores: seq<real>, n: Option<nat>, decay: real)
    ensures |Weights(scores, n, Some(decay))| == |AlignedTo(scores, n)|
    ensures Weights(scores, n, Some(decay)) == Normalize(ByCounting(AlignedTo(scores, n), decay))
  {
  }

  lemma AlignedOrder(scores: seq<real>, n: Option<nat>, v: nat, u: nat)
    requires v < |AlignedTo(scores, n)| && u < |AlignedTo(scores, n)|
    ensures var s := AlignedTo(scores, n);
            && (s[u] > 0.0 <==> ScoreOf(scores, u) > 0.0)
            && (s[u] > 0.0 && PaidAhead(scores, v, u) ==> Beats(s, v, u))
  {
    AlignedScore(scores, n, u);
    AlignedScore(scores, n, v);
    hide AlignedTo;
  }

  lemma AdjacentIsNext(scores: seq<real>, n: Option<nat>, v: nat, u: nat)
    requires v < |AlignedTo(scores, n)| && u < |AlignedTo(scores, n)| && ScoreOf(scores, u) > 0.0
    ensures PaidNext(scores, |AlignedTo(scores, n)|, v, u) ==> Adjacent(AlignedTo(scores, n), v, u)
  {
    var s := AlignedTo(scores, n);
    forall x: nat | x < |s| ensures s[x] == if ScoreOf(scores, x) < 0.0 then 0.0 else ScoreOf(scores, x) {
      AlignedScore(scores, n, x);
    }
    hide AlignedTo, ScoreOf;
    if PaidNext(scores, |s|, v, u) {
      forall x: nat | x < |s| ensures !(Beats(s, v, x) && Beats(s, x, u)) {
        assert !(PaidAhead(scores, v, x) && PaidAhead(scores, x, u));
      }
    }
  }

  /** The share of a rank. */
  function Portion(decay: real, rank: nat, total: real): real
    requires total > 0.0
  {
    Pow(decay, rank) / total
  }

  lemma ShareIsPortion(s: seq<real>, decay: real, u: nat)
    requires 0.0 < decay <= 1.0 && u < |s| && s[u] > 0.0
    ensures Geometric(decay, |Positive(s)|) > 0.0
    ensures Normalize(ByCounting(s, decay))[u] == Portion(decay, Rank(s, u), Geometric(decay, |Positive(s)|))
  {
    Share(s, decay, u);
  }

  lemma Ladder(s: seq<real>, decay: real, v: nat, u: nat)
    requires 0.0 < decay <= 1.0
    requires v < |s| && u < |s| && s[u] > 0.0 && Beats(s, v, u)
    ensures var w := Normalize(ByCounting(s, decay));
            && w[u] <= decay * w[v]
            && (Adjacent(s, v, u) ==> w[u] == decay * w[v])
  {
    assert s[v] > 0.0;
    hide *;
    ShareIsPortion(s, decay, u);
    ShareIsPortion(s, decay, v);
    AheadGrows(s, v, u);
    var w := Normalize(ByCounting(s, decay));
    StepDown(decay, Rank(s, v), Rank(s, u), Geometric(decay, |Positive(s)|), w[v], w[u]);
  }

  lemma SharePositive(s: seq<real>, decay: real, u: nat)
    requires 0.0 < decay <= 1.0 && u < |s|
    ensures var w := Normalize(ByCounting(s, decay))[u]; if s[u] > 0.0 then w > 0.0 else w == 0.0
  {
    Share(s, decay, u);
    PowInUnit(decay, Rank(s, u));
    var g, p := Geometric(decay, |Positive(s)|), Pow(decay, Rank(s, u));
    hide *;
    if s[u] > 0.0 {
      assert (p / g) * g == p;
    }
  }

  lemma StepDown(decay: real, m: nat, n: nat, total: real, x: real, y: real)
    requires 0.0 < decay <= 1.0 && m < n && total > 0.0
    requires x == Portion(decay, m, total) && y == Portion(decay, n, total)
    ensures y <= decay * x
    ensures n == m + 1 ==> y == decay * x
  {
    PowAntitone(decay, m + 1, n);
    PowInUnit(decay, n);
    QuotientOrder(Pow(decay, n), Pow(decay, m + 1), total, total);
    ScaledQuotient(decay, Pow(decay, m), total);
  }

  lemma {:induction false} SumPositive(s: seq<real>)
    requires forall i :: 0 <= i < |s| ==> s[i] >= 0.0
    ensures Sum(s) >= 0.0
    ensures Sum(s) > 0.0 <==> exists i :: 0 <= i < |s| && s[i] > 0.0
  {
    if s != [] {
      SumPositive(s[..|s| - 1]);
    }
  }

  /** Without ranking, everyone gets the part of the total that its score is. */
  lemma UnrankedIsProportional(scores: seq<real>, n: Option<nat>, u: nat)
    requires u < |Weights(scores, n, None)|
    ensures var w, s := Weights(scores, n, None), AlignedTo(scores, n);
            && (Positive(s) == {} ==> w[u] == 0.0)
            && (Positive(s) != {} ==>
                  Sum(w) == 1.0 && w[u] * Sum(s) == if ScoreOf(scores, u) < 0.0 then 0.0 else ScoreOf(scores, u))
  {
    var s := AlignedTo(scores, n);
    AlignedScore(scores, n, u);
    assert Weights(scores, n, None) == Normalize(s);
    hide *;
    Proportional(s, u);
  }

  lemma Product(x: real, total: real)
    requires total > 0.0
    ensures x / total * total == x
  {
  }

  lemma NormalForm(s: seq<real>)
    ensures Sum(s) <= 0.0 ==> forall i :: 0 <= i < |s| ==> Normalize(s)[i] == 0.0
    ensures Sum(s) > 0.0 ==> forall i :: 0 <= i < |s| ==> Normalize(s)[i] == s[i] / Sum(s)
  {
  }

  lemma PositiveSum(s: seq<real>)
    requires forall i :: 0 <= i < |s| ==> s[i] >= 0.0
    ensures Positive(s) != {} <==> Sum(s) > 0.0
  {
    SumPositive(s);
    if i :| 0 <= i < |s| && s[i] > 0.0 { assert i in Positive(s); }
  }

  lemma Proportional(s: seq<real>, u: nat)
    requires u < |s| && forall i :: 0 <= i < |s| ==> s[i] >= 0.0
    ensures Positive(s) == {} ==> Normalize(s)[u] == 0.0
    ensures Positive(s) != {} ==> Sum(Normalize(s)) == 1.0 && Normalize(s)[u] * Sum(s) == s[u]
  {
    hide *;
    PositiveSum(s);
    NormalForm(s);
    if Sum(s) > 0.0 {
      SumScaled(s, Normalize(s), Sum(s));
      SelfQuotient(Sum(s));
      Product(s[u], Sum(s));
    }
  }

  lemma RaiseMovesRanks(s: seq<real>, u: nat, x: real)
    requires u < |s| && x >= s[u]
    ensures var t := s[u := x];
            && Positive(s) <= Positive(t) && |Positive(s)| <= |Positive(t)|
            && Rank(t, u) <= Rank(s, u)
            && forall v :: 0 <= v < |s| && v != u ==> Rank(s, v) <= Rank(t, v)
  {
    var t := s[u := x];
    Subset(Positive(s), Positive(t));
    assert forall v: nat :: v < |s| && v != u ==> t[v] == s[v];
    assert Ahead(t, u) <= Ahead(s, u);
    Subset(Ahead(t, u), Ahead(s, u));
    forall v | 0 <= v < |s| && v != u ensures Rank(s, v) <= Rank(t, v) {
      assert Ahead(s, v) <= Ahead(t, v);
      Subset(Ahead(s, v), Ahead(t, v));
    }
  }

  lemma Subset(a: set<nat>, b: set<nat>)
    requires a <= b
    ensures |a| <= |b|
  {
    assert b == a + (b - a);
  }
}
