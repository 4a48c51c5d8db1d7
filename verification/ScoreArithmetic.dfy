// The arithmetic of the score: a weighted mean with two layers of rounding.
// A criterion that counts contributes a weight and a fulfilment between 0 and 1.
module ScoreArithmetic {
  import opened Common

  datatype Term = Term(weight: real, fulfilment: real)

  /** Two decimals. */
  function Round2(x: real): real { Round(x * 100.0) as real / 100.0 }

  function Penalty(t: Term): real { t.weight * (1.0 - t.fulfilment) }

  function SumWeight(ts: seq<Term>): real {
    if ts == [] then 0.0 else ts[0].weight + SumWeight(ts[1..])
  }

  function SumPenalty(ts: seq<Term>): real {
    if ts == [] then 0.0 else Penalty(ts[0]) + SumPenalty(ts[1..])
  }

  /** Each penalty is rounded before it is added. */
  function SumRounded(ts: seq<Term>): real {
    if ts == [] then 0.0 else Round2(Penalty(ts[0])) + SumRounded(ts[1..])
  }

  function Clamp100(x: int): int { Min(100, Max(0, x)) }

  /** The displayed score. */
  function Shown(ts: seq<Term>): int {
    if SumWeight(ts) > 0.0
    then Clamp100(Round(100.0 * (1.0 - Round2(SumRounded(ts)) / SumWeight(ts))))
    else 100
  }

  function SumFulfilled(ts: seq<Term>): real {
    if ts == [] then 0.0 else ts[0].weight * ts[0].fulfilment + SumFulfilled(ts[1..])
  }

  /** The weighted mean it stands for, in points. */
  function Exact(ts: seq<Term>): real
    requires SumWeight(ts) > 0.0
  {
    Mean(SumFulfilled(ts), SumWeight(ts))
  }

  function Mean(s: real, w: real): real
    requires w > 0.0
  {
    100.0 * (s / w)
  }

  /** Weights after normalisation: positive whole numbers. */
  ghost predicate Normal(ts: seq<Term>) {
    forall t | t in ts :: t.weight >= 1.0 && 0.0 <= t.fulfilment <= 1.0
  }

  ghost predicate Positive(ts: seq<Term>) {
    forall t | t in ts :: t.weight > 0.0 && 0.0 <= t.fulfilment <= 1.0
  }

  // ── Rounding ────────────────────────────────────────────────────────────────

  lemma {:induction false} WeightAtLeastCount(ts: seq<Term>)
    requires Normal(ts)
    ensures SumWeight(ts) >= |ts| as real
  {
    if ts != [] {
      assert ts[0] in ts;
      assert Normal(ts[1..]);
      WeightAtLeastCount(ts[1..]);
    }
  }

  function Cents(ts: seq<Term>): int {
    if ts == [] then 0 else Round(Penalty(ts[0]) * 100.0) + Cents(ts[1..])
  }

  /** A sum of values with two decimals has two decimals: the outer rounding changes nothing. */
  lemma {:induction false} RoundedAreCents(ts: seq<Term>)
    ensures SumRounded(ts) == Cents(ts) as real / 100.0
  {
    if ts != [] {
      RoundedAreCents(ts[1..]);
      var c := Round(Penalty(ts[0]) * 100.0);
      assert c as real / 100.0 + Cents(ts[1..]) as real / 100.0 == (c + Cents(ts[1..])) as real / 100.0;
    }
  }

  lemma RoundWhole(n: int)
    ensures Round(n as real) == n
  {
  }

  lemma OuterRoundingIsExact(ts: seq<Term>)
    ensures Round2(SumRounded(ts)) == SumRounded(ts)
  {
    RoundedAreCents(ts);
    var n := Cents(ts);
    var x := SumRounded(ts) * 100.0;
    assert x == n as real;
    RoundWhole(n);
  }

  lemma {:induction false} SumRoundedClose(ts: seq<Term>)
    ensures -0.005 * |ts| as real <= SumRounded(ts) - SumPenalty(ts) <= 0.005 * |ts| as real
  {
    if ts != [] {
      SumRoundedClose(ts[1..]);
      var p := Penalty(ts[0]);
      RoundIsNearest(p * 100.0);
      assert -0.005 <= Round2(p) - p <= 0.005;
      assert |ts| as real == 1.0 + |ts[1..]| as real;
    }
  }

  lemma {:induction false} PenaltyComplements(ts: seq<Term>)
    ensures SumPenalty(ts) == SumWeight(ts) - SumFulfilled(ts)
  {
    if ts != [] {
      PenaltyComplements(ts[1..]);
    }
  }

  lemma DivideBound(x: real, w: real, lo: real, hi: real)
    requires w > 0.0 && lo * w <= x <= hi * w
    ensures lo <= x / w <= hi
  {
  }

  lemma DivideSplit(x: real, y: real, w: real)
    requires w > 0.0
    ensures (x + y) / w == x / w + y / w && w / w == 1.0
  {
  }

  /** `x` lies between `lo` and `hi` times `w`. */
  ghost predicate Spans(lo: real, x: real, hi: real, w: real) { lo * w <= x <= hi * w }

  lemma AddBounds(w: real, f: real, rest: real, restFulfilled: real, lo: real, hi: real)
    requires w >= 0.0 && lo <= f <= hi && Spans(lo, restFulfilled, hi, rest)
    ensures Spans(lo, w * f + restFulfilled, hi, w + rest)
  {
  }

  lemma {:induction false} FulfilledBounds(ts: seq<Term>, lo: real, hi: real)
    requires forall t | t in ts :: t.weight >= 0.0 && lo <= t.fulfilment <= hi
    ensures Spans(lo, SumFulfilled(ts), hi, SumWeight(ts))
  {
    if ts != [] {
      var first, rest := ts[0], ts[1..];
      assert first in ts;
      FulfilledBounds(rest, lo, hi);
      AddBounds(first.weight, first.fulfilment, SumWeight(rest), SumFulfilled(rest), lo, hi);
    }
  }

  /** The exact score lies between the worst and the best fulfilment that counts. */
  lemma ExactBetween(ts: seq<Term>, lo: real, hi: real)
    requires SumWeight(ts) > 0.0
    requires forall t | t in ts :: t.weight >= 0.0 && lo <= t.fulfilment <= hi
    ensures 100.0 * lo <= Exact(ts) <= 100.0 * hi
  {
    FulfilledBounds(ts, lo, hi);
    DivideBound(SumFulfilled(ts), SumWeight(ts), lo, hi);
  }

  /** Before the last rounding, the score is off by at most half a point. */
  lemma BeforeLastRounding(ts: seq<Term>)
    requires Normal(ts) && ts != []
    ensures SumWeight(ts) > 0.0
    ensures -0.5 <= 100.0 * (1.0 - SumRounded(ts) / SumWeight(ts)) - Exact(ts) <= 0.5
  {
    var w := SumWeight(ts);
    WeightAtLeastCount(ts);
    assert w >= |ts| as real >= 1.0;
    SumRoundedClose(ts);
    PenaltyComplements(ts);
    var d := SumRounded(ts) - SumPenalty(ts);
    assert -0.005 * w <= d <= 0.005 * w;
    DivideBound(d, w, -0.005, 0.005);
    assert SumRounded(ts) + SumFulfilled(ts) == d + w;
    DivideSplit(SumRounded(ts), SumFulfilled(ts), w);
    DivideSplit(d, w, w);
  }

  /** With normalised weights the displayed score is within one point of the exact weighted mean. */
  lemma RoundingBound(ts: seq<Term>)
    requires Normal(ts) && ts != []
    ensures SumWeight(ts) > 0.0 && -1.0 <= Shown(ts) as real - Exact(ts) <= 1.0
  {
    BeforeLastRounding(ts);
    OuterRoundingIsExact(ts);
    var x := 100.0 * (1.0 - SumRounded(ts) / SumWeight(ts));
    RoundIsNearest(x);
    ExactBetween(ts, 0.0, 1.0);
  }

  // ── Monotonicity ────────────────────────────────────────────────────────────

  /** The same criteria count with the same weights, each fulfilled at least as well. */
  ghost predicate AtLeastAsGood(ts: seq<Term>, us: seq<Term>) {
    && |ts| == |us|
    && forall i | 0 <= i < |ts| :: ts[i].weight == us[i].weight && ts[i].fulfilment <= us[i].fulfilment
  }

  lemma PenaltyMonotone(t: Term, u: Term)
    requires t.weight == u.weight > 0.0 && t.fulfilment <= u.fulfilment
    ensures Round2(Penalty(u)) <= Round2(Penalty(t))
  {
    assert t.weight * (u.fulfilment - t.fulfilment) >= 0.0;
    RoundMonotone(Penalty(u) * 100.0, Penalty(t) * 100.0);
  }

  lemma {:induction false} SumsMonotone(ts: seq<Term>, us: seq<Term>)
    requires AtLeastAsGood(ts, us) && Positive(ts)
    ensures SumWeight(ts) == SumWeight(us) >= 0.0 && SumRounded(us) <= SumRounded(ts)
  {
    if ts != [] {
      assert ts[0] in ts && Positive(ts[1..]);
      assert AtLeastAsGood(ts[1..], us[1..]);
      SumsMonotone(ts[1..], us[1..]);
      PenaltyMonotone(ts[0], us[0]);
    }
  }

  lemma DivideMonotone(x: real, y: real, w: real)
    requires w > 0.0 && x <= y
    ensures x / w <= y / w
  {
  }

  /** Better fulfilment never lowers the displayed integer. */
  lemma ShownMonotone(ts: seq<Term>, us: seq<Term>)
    requires AtLeastAsGood(ts, us) && Positive(ts)
    ensures Shown(ts) <= Shown(us)
  {
    SumsMonotone(ts, us);
    if SumWeight(ts) > 0.0 {
      OuterRoundingIsExact(ts);
      OuterRoundingIsExact(us);
      DivideMonotone(SumRounded(us), SumRounded(ts), SumWeight(ts));
      RoundMonotone(100.0 * (1.0 - SumRounded(ts) / SumWeight(ts)), 100.0 * (1.0 - SumRounded(us) / SumWeight(us)));
    }
  }

  /** Full fulfilment throughout shows 100. */
  lemma {:induction false} PerfectShows100(ts: seq<Term>)
    requires forall t | t in ts :: t.fulfilment == 1.0
    ensures SumRounded(ts) == 0.0 && Shown(ts) == 100
  {
    if ts != [] {
      assert ts[0] in ts;
      PerfectShows100(ts[1..]);
      assert Penalty(ts[0]) == 0.0;
    }
  }

  // ── Shifting a weight ───────────────────────────────────────────────────────

  lemma {:induction false} SumsAfterShift(ts: seq<Term>, i: nat, w: real)
    requires i < |ts|
    ensures var d := w - ts[i].weight; var us := ts[i := ts[i].(weight := w)];
            SumWeight(us) == SumWeight(ts) + d && SumFulfilled(us) == SumFulfilled(ts) + d * ts[i].fulfilment
  {
    var us := ts[i := ts[i].(weight := w)];
    if i == 0 {
      assert us[1..] == ts[1..];
    } else {
      assert us[1..] == ts[1..][i - 1 := ts[i].(weight := w)];
      SumsAfterShift(ts[1..], i - 1, w);
    }
  }

  /** Adding weight `d` at `f` moves the mean towards `f`. */
  lemma MeanMoves(s: real, w: real, s': real, w': real, d: real, f: real)
    requires w > 0.0 && d > 0.0 && s' == s + d * f && w' == w + d
    ensures 100.0 * f < Mean(s, w) ==> Mean(s', w') < Mean(s, w)
    ensures 100.0 * f > Mean(s, w) ==> Mean(s', w') > Mean(s, w)
  {
    var m, n := s / w, s' / w';
    assert m * w == s && n * w' == s';
    assert (n - m) * w' == d * (f - m);
  }

  lemma ExactShift(ts: seq<Term>, i: nat, w: real)
    requires i < |ts| && SumWeight(ts) > 0.0 && w > ts[i].weight
    ensures var us := ts[i := ts[i].(weight := w)];
            && SumWeight(us) > 0.0
            && (100.0 * ts[i].fulfilment < Exact(ts) ==> Exact(us) < Exact(ts))
            && (100.0 * ts[i].fulfilment > Exact(ts) ==> Exact(us) > Exact(ts))
  {
    var us := ts[i := ts[i].(weight := w)];
    SumsAfterShift(ts, i, w);
    MeanMoves(SumFulfilled(ts), SumWeight(ts), SumFulfilled(us), SumWeight(us), w - ts[i].weight, ts[i].fulfilment);
  }

  /**
   * Raising the weight of a criterion pulls the exact score strictly towards
   * that criterion; the displayed integer moves the other way by at most one.
   */
  lemma WeightShift(ts: seq<Term>, i: nat, w: real)
    requires Normal(ts) && i < |ts| && w > ts[i].weight
    ensures var us := ts[i := ts[i].(weight := w)];
            && SumWeight(ts) > 0.0 && SumWeight(us) > 0.0
            && (100.0 * ts[i].fulfilment < Exact(ts) ==> Exact(us) < Exact(ts) && Shown(us) <= Shown(ts) + 1)
            && (100.0 * ts[i].fulfilment > Exact(ts) ==> Exact(us) > Exact(ts) && Shown(us) >= Shown(ts) - 1)
  {
    var us := ts[i := ts[i].(weight := w)];
    assert ts[i] in ts;
    forall t | t in us ensures t.weight >= 1.0 && 0.0 <= t.fulfilment <= 1.0 {
      var j :| 0 <= j < |us| && us[j] == t;
      assert ts[j] in ts;
    }
    RoundingBound(ts);
    RoundingBound(us);
    ExactShift(ts, i, w);
  }
}
