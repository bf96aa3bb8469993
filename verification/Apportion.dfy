/** Proportional apportionment of a stage's commands over the connected sessions:
    weightedHomeDiverseCommandSlots of scripts/go/cloud-mqtt-test/main.go, with the
    floating-point formula floor((i + 0.5) * W / m) computed exactly. */
module Apportion {
  import opened Common

  function Total(weights: seq<nat>): (r: nat) {
    if weights == [] then 0 else Total(weights[..|weights| - 1]) + weights[|weights| - 1]
  }

  /** How many commands session s receives. */
  function Count(slots: seq<nat>, s: nat): (r: nat) {
    if slots == [] then 0
    else Count(slots[..|slots| - 1], s) + if slots[|slots| - 1] == s then 1 else 0
  }

  /** The position in the weighted list of command i out of m: floor((2i + 1) W / 2m). */
  function Position(i: nat, m: nat, W: nat): (r: nat)
    requires m > 0
  {
    FloorDiv(Times(2 * i + 1, W), 2 * m)
  }

  /** The weighted list names session s at exactly the positions between the weight of the
      sessions before s and the weight up to and including s. */
  ghost predicate IsWeightedList(weights: seq<nat>, weighted: seq<nat>) {
    && |weighted| == Total(weights)
    && forall j :: 0 <= j < |weighted| ==>
         weighted[j] < |weights| && Total(weights[..weighted[j]]) <= j < Total(weights[..weighted[j] + 1])
  }

  /** Within one command of the exact share, from below and from above. */
  ghost predicate Quota(count: nat, m: nat, w: nat, W: nat)
    requires W > 0
  {
    count == FloorDiv(Times(m, w), W) || count == FloorDiv(Times(m, w) + W - 1, W)
  }

  /** Command i out of m goes to the session at its position of the weighted list. */
  ghost predicate Picked(weighted: seq<nat>, slots: seq<nat>, m: nat)
    requires m > 0
  {
    && |slots| == m
    && forall i :: 0 <= i < m ==>
         Position(i, m, |weighted|) < |weighted| && slots[i] == weighted[Position(i, m, |weighted|)]
  }

  method WeightedSlots(weights: seq<nat>, minCommands: int) returns (slots: seq<nat>)
    ensures minCommands <= 0 || Total(weights) == 0 ==> slots == []
    ensures minCommands > 0 && Total(weights) > 0 ==>
              && |slots| == minCommands
              && (forall i :: 0 <= i < |slots| ==> slots[i] < |weights| && weights[slots[i]] > 0)
              && (forall i, j :: 0 <= i <= j < |slots| ==> slots[i] <= slots[j])
              && (forall s :: 0 <= s < |weights| ==> Quota(Count(slots, s), minCommands, weights[s], Total(weights)))
  {
    slots := [];
    if minCommands <= 0 { return; }
    var weighted: seq<nat> := [];
    for idx := 0 to |weights|
      invariant IsWeightedList(weights[..idx], weighted)
    {
      assert weights[..idx + 1][..idx] == weights[..idx];
      ghost var before := weighted;
      for n := 0 to weights[idx]
        invariant |weighted| == Total(weights[..idx]) + n
        invariant weighted[..|before|] == before
        invariant forall j :: |before| <= j < |weighted| ==> weighted[j] == idx
      {
        weighted := weighted + [idx];
      }
      ExtendWeighted(weights[..idx + 1], before, weighted);
    }
    assert weights[..|weights|] == weights;
    if |weighted| == 0 { return; }
    ghost var W := |weighted|;
    var m := minCommands;
    for idx := 0 to m
      invariant |slots| == idx
      invariant forall i :: 0 <= i < idx ==> Position(i, m, W) < W && slots[i] == weighted[Position(i, m, W)]
    {
      PositionInRange(idx, m, W);
      var position := Position(idx, m, |weighted|);
      if position >= |weighted| { assert false; }
      slots := slots + [weighted[position]];
    }
    ghost var result := slots;
    forall s | 0 <= s < |weights|
      ensures Quota(Count(slots, s), m, weights[s], W)
    {
      ShareOf(weights, weighted, slots, m, s);
    }
    forall i, j | 0 <= i <= j < |slots|
      ensures slots[i] <= slots[j]
    {
      PositionMonotone(i, j, m, W);
      WeightedMonotone(weights, weighted, Position(i, m, W), Position(j, m, W));
    }
    forall i | 0 <= i < |slots| ensures weights[slots[i]] > 0 {
      assert weights[..slots[i] + 1][..slots[i]] == weights[..slots[i]];
    }
  }

  lemma ExtendWeighted(weights: seq<nat>, before: seq<nat>, after: seq<nat>)
    requires weights != []
    requires IsWeightedList(weights[..|weights| - 1], before)
    requires |after| == |before| + weights[|weights| - 1] && after[..|before|] == before
    requires forall j :: |before| <= j < |after| ==> after[j] == |weights| - 1
    ensures IsWeightedList(weights, after)
  {
    var n := |weights| - 1;
    forall j | 0 <= j < |after|
      ensures after[j] < |weights| && Total(weights[..after[j]]) <= j < Total(weights[..after[j] + 1])
    {
      if j < |before| {
        assert after[j] == before[j];
        assert weights[..n][..before[j]] == weights[..before[j]];
        assert weights[..n][..before[j] + 1] == weights[..before[j] + 1];
      } else {
        assert weights[..n + 1] == weights;
      }
    }
  }

  /** The clamp in the source is never taken. */
  lemma PositionInRange(i: nat, m: nat, W: nat)
    requires i < m && W > 0
    ensures Position(i, m, W) < W
  {
    PositionBelow(i, m, W, W);
    MulMono(W, i + 1, m);
    Distribute(W, i, 1);
  }

  lemma PositionMonotone(i: nat, j: nat, m: nat, W: nat)
    requires i <= j && m > 0
    ensures Position(i, m, W) <= Position(j, m, W)
  {
    var q := Position(j, m, W) + 1;
    PositionBelow(i, m, W, q);
    PositionBelow(j, m, W, q);
    MulMono(W, i, j);
  }

  lemma {:induction false} TotalMonotone(weights: seq<nat>, a: nat, b: nat)
    requires a <= b <= |weights|
    ensures Total(weights[..a]) <= Total(weights[..b])
    decreases b
  {
    if a < b {
      assert weights[..b][..b - 1] == weights[..b - 1];
      TotalMonotone(weights, a, b - 1);
    }
  }

  lemma TotalStep(weights: seq<nat>, s: nat)
    requires s < |weights|
    ensures Total(weights[..s + 1]) == Total(weights[..s]) + weights[s] <= Total(weights)
  {
    assert weights[..s + 1][..s] == weights[..s];
    TotalMonotone(weights, s + 1, |weights|);
    assert weights[..|weights|] == weights;
  }

  lemma WeightedMonotone(weights: seq<nat>, weighted: seq<nat>, a: nat, b: nat)
    requires IsWeightedList(weights, weighted)
    requires a <= b < |weighted|
    ensures weighted[a] <= weighted[b]
  {
    if weighted[b] < weighted[a] {
      TotalMonotone(weights, weighted[b] + 1, weighted[a]);
    }
  }

  /** The number of the m commands whose position lies below Q. */
  function Below(m: nat, W: nat, Q: nat, from: nat): (k: nat)
    requires m > 0 && from <= m
    ensures from <= k <= m
    ensures forall i :: from <= i < k ==> Position(i, m, W) < Q
    ensures k < m ==> Position(k, m, W) >= Q
    decreases m - from
  {
    if from == m || Position(from, m, W) >= Q then from else Below(m, W, Q, from + 1)
  }

  lemma Distribute(a: nat, b: nat, c: nat)
    ensures Times(b + c, a) == Times(b, a) + Times(c, a) && Times(a, b + c) == Times(a, b) + Times(a, c)
  {
  }

  lemma Commute(a: nat, b: nat)
    ensures Times(a, b) == Times(b, a)
  {
  }

  lemma Twice(a: nat, b: nat)
    ensures Times(2 * a, b) == 2 * Times(a, b) && Times(1, b) == b
  {
  }

  lemma PositionBelow(i: nat, m: nat, W: nat, Q: nat)
    requires m > 0
    ensures Position(i, m, W) < Q <==> 2 * Times(i, W) + W < 2 * Times(m, Q)
  {
    Distribute(W, 2 * i, 1);
    Twice(i, W);
    Twice(m, Q);
    DivBelow(Times(2 * i + 1, W), 2 * m, Q);
  }

  /** Below rounds m Q / W to the nearest integer: 2mQ - W <= 2kW < 2mQ + W. */
  lemma BelowBounds(m: nat, W: nat, Q: nat)
    requires m > 0 && 0 < W && Q <= W
    ensures 2 * Times(m, Q) - W <= 2 * Times(Below(m, W, Q, 0), W) < 2 * Times(m, Q) + W
  {
    var k := Below(m, W, Q, 0);
    if k > 0 {
      PositionBelow(k - 1, m, W, Q);
      Distribute(W, k - 1, 1);
      Twice(1, W);
    }
    if k < m { PositionBelow(k, m, W, Q); } else { MulMono(m, Q, W); }
  }

  /** A block of equal entries between smaller and larger ones is counted by its length. */
  lemma {:induction false} CountBlock(slots: seq<nat>, s: nat, lo: nat, hi: nat)
    requires lo <= hi <= |slots|
    requires forall i :: 0 <= i < |slots| ==> (slots[i] == s <==> lo <= i < hi)
    ensures Count(slots, s) == hi - lo
    decreases |slots|
  {
    if slots != [] {
      var n := |slots| - 1;
      var hi' := if hi == |slots| && lo < hi then hi - 1 else if hi == |slots| then n else hi;
      var lo' := if lo == |slots| then n else lo;
      CountBlock(slots[..n], s, lo', hi');
    }
  }

  /** The exact share: session s gets the floor or the ceiling of m w / W commands. */
  lemma ShareOf(weights: seq<nat>, weighted: seq<nat>, slots: seq<nat>, m: nat, s: nat)
    requires IsWeightedList(weights, weighted)
    requires s < |weights| && m > 0 && |weighted| > 0 && Picked(weighted, slots, m)
    ensures Quota(Count(slots, s), m, weights[s], |weighted|)
  {
    TotalStep(weights, s);
    BlockOf(weights, weighted, slots, m, s);
    BelowQuota(m, |weighted|, Total(weights[..s]), weights[s]);
  }

  lemma BelowQuota(m: nat, W: nat, P: nat, w: nat)
    requires m > 0 && W > 0 && P + w <= W && Below(m, W, P, 0) <= Below(m, W, P + w, 0)
    ensures Quota(Below(m, W, P + w, 0) - Below(m, W, P, 0), m, w, W)
  {
    BelowBounds(m, W, P);
    BelowBounds(m, W, P + w);
    QuotaFromBounds(m, W, P, w, Below(m, W, P, 0), Below(m, W, P + w, 0));
  }

  /** The slots of a session are one block, between the positions below its interval's ends. */
  lemma BlockOf(weights: seq<nat>, weighted: seq<nat>, slots: seq<nat>, m: nat, s: nat)
    requires IsWeightedList(weights, weighted)
    requires s < |weights| && m > 0 && |weighted| > 0 && Picked(weighted, slots, m)
    ensures var lo, hi := Below(m, |weighted|, Total(weights[..s]), 0), Below(m, |weighted|, Total(weights[..s + 1]), 0);
            lo <= hi && Count(slots, s) == hi - lo
  {
    var W := |weighted|;
    var P, Q := Total(weights[..s]), Total(weights[..s + 1]);
    assert weights[..s + 1][..s] == weights[..s];
    var lo, hi := Below(m, W, P, 0), Below(m, W, Q, 0);
    forall i | 0 <= i < m ensures slots[i] == s <==> lo <= i < hi {
      BelowExactly(m, W, P, i);
      BelowExactly(m, W, Q, i);
      NamesSession(weights, weighted, Position(i, m, W), s);
    }
    if hi < lo {
      BelowExactly(m, W, P, hi);
      BelowExactly(m, W, Q, hi);
    }
    CountBlock(slots, s, lo, hi);
  }

  lemma NamesSession(weights: seq<nat>, weighted: seq<nat>, j: nat, s: nat)
    requires IsWeightedList(weights, weighted)
    requires s < |weights| && j < |weighted|
    ensures weighted[j] == s <==> Total(weights[..s]) <= j < Total(weights[..s + 1])
  {
    if weighted[j] < s {
      TotalMonotone(weights, weighted[j] + 1, s);
    } else if s < weighted[j] {
      TotalMonotone(weights, s + 1, weighted[j]);
    }
  }

  lemma BelowExactly(m: nat, W: nat, Q: nat, i: nat)
    requires m > 0 && i < m
    ensures i < Below(m, W, Q, 0) <==> Position(i, m, W) < Q
  {
    var k := Below(m, W, Q, 0);
    if k <= i { PositionMonotone(k, i, m, W); }
  }

  lemma QuotaFromBounds(m: nat, W: nat, P: nat, w: nat, lo: nat, hi: nat)
    requires W > 0 && lo <= hi
    requires 2 * Times(m, P) - W <= 2 * Times(lo, W) < 2 * Times(m, P) + W
    requires 2 * Times(m, P + w) - W <= 2 * Times(hi, W) < 2 * Times(m, P + w) + W
    ensures Quota(hi - lo, m, w, W)
  {
    Distribute(m, P, w);
    Distribute(W, lo, hi - lo);
    NearestDivision(hi - lo, Times(m, w), W);
  }

  lemma NearestDivision(c: nat, a: nat, W: nat)
    requires W > 0 && a - W < Times(c, W) < a + W
    ensures c == FloorDiv(a, W) || c == FloorDiv(a + W - 1, W)
  {
    Commute(c, W);
    if Times(c, W) <= a { DivIs(a, W, c); } else { DivIs(a + W - 1, W, c); }
  }

  lemma DivIs(a: nat, d: nat, q: nat)
    requires d > 0 && Times(d, q) <= a < Times(d, q) + d
    ensures FloorDiv(a, d) == q
  {
    Distribute(d, q, 1);
    Twice(1, d);
    DivBelow(a, d, q);
    DivBelow(a, d, q + 1);
  }
}
