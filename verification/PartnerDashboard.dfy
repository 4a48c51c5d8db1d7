// What a partner sees: sums over the referrals, the last six months, the ranking.
module PartnerDashboard {
  import opened Common
  import opened Referrals
  import opened StableSort

  // ── Sums ────────────────────────────────────────────────────────────────────

  function SumWhere(rs: seq<Referral>, f: Referral -> bool): nat {
    if rs == [] then 0
    else SumWhere(rs[..|rs| - 1], f) + if f(rs[|rs| - 1]) then rs[|rs| - 1].rewardCents else 0
  }

  function CountWhere(rs: seq<Referral>, f: Referral -> bool): nat {
    if rs == [] then 0 else CountWhere(rs[..|rs| - 1], f) + if f(rs[|rs| - 1]) then 1 else 0
  }

  lemma {:induction false} SumsAgree(rs: seq<Referral>, f: Referral -> bool, g: Referral -> bool)
    requires forall i | 0 <= i < |rs| :: f(rs[i]) == g(rs[i]) || rs[i].rewardCents == 0
    ensures SumWhere(rs, f) == SumWhere(rs, g)
  {
    if rs != [] {
      SumsAgree(rs[..|rs| - 1], f, g);
    }
  }

  lemma {:induction false} CountBound(rs: seq<Referral>, f: Referral -> bool)
    ensures CountWhere(rs, f) <= |rs|
  {
    if rs != [] {
      CountBound(rs[..|rs| - 1], f);
    }
  }

  /** The sum is over the rewards of the referrals chosen, each once. */
  lemma {:induction false} SumIsOverRewards(rs: seq<Referral>, f: Referral -> bool)
    ensures SumWhere(rs, f) == SumOf(rs, (r: Referral) => if f(r) then r.rewardCents else 0)
  {
    if rs != [] {
      SumIsOverRewards(rs[..|rs| - 1], f);
    }
  }

  /** The count is the number of places that hold one of those chosen. */
  lemma {:induction false} CountIsCard(rs: seq<Referral>, f: Referral -> bool)
    ensures CountWhere(rs, f) == |set i | 0 <= i < |rs| && f(rs[i])|
  {
    if rs != [] {
      var n := |rs| - 1;
      CountIsCard(rs[..n], f);
      assert (set i | 0 <= i < |rs| && f(rs[i]))
          == (set i | 0 <= i < n && f(rs[..n][i])) + if f(rs[n]) then {n} else {};
    }
  }

  // ── Months ──────────────────────────────────────────────────────────────────

  /** The local calendar: year, and month from 0 to 11, of a point in time. */
  datatype Kalender = Kalender(jahr: int -> int, monat: int -> int)

  ghost predicate CalendarOk(c: Kalender) { forall t :: 0 <= c.monat(t) < 12 }

  /** The year and month of `new Date(jahr, monat - i, 1)`. */
  function Zurueck(jahr: int, monat: int, i: nat): (int, int) { (jahr + (monat - i) / 12, (monat - i) % 12) }

  predicate InMonth(c: Kalender, r: Referral, m: (int, int)) {
    r.placedAt.Some? && c.jahr(r.placedAt.value) == m.0 && c.monat(r.placedAt.value) == m.1
  }

  /** Months counted through from year 0. */
  function Lauf(c: Kalender, t: int): int { c.jahr(t) * 12 + c.monat(t) }

  lemma MonthIsIndex(c: Kalender, t: int, now: int, i: nat)
    requires CalendarOk(c)
    ensures (c.jahr(t), c.monat(t)) == Zurueck(c.jahr(now), c.monat(now), i) <==> Lauf(c, t) == Lauf(c, now) - i
  {
  }

  datatype Monat = Monat(monat: int, cents: nat)

  function Bucket(c: Kalender, rs: seq<Referral>, now: int, i: nat): nat {
    SumWhere(rs, (r: Referral) => Placed(r) && InMonth(c, r, Zurueck(c.jahr(now), c.monat(now), i)))
  }

  /** `conversion` is a whole percentage, zero without referrals. */
  datatype Uebersicht = Uebersicht(earnedCents: nat, referredCount: nat, placedCount: nat, inPlacementCount: nat,
                                   conversion: int, monthly: seq<Monat>)

  method SumRewards(rs: seq<Referral>, f: Referral -> bool) returns (cents: nat, count: nat)
    ensures cents == SumWhere(rs, f) && count == CountWhere(rs, f)
  {
    cents, count := 0, 0;
    for i := 0 to |rs|
      invariant cents == SumWhere(rs[..i], f) && count == CountWhere(rs[..i], f)
    {
      assert rs[..i + 1][..i] == rs[..i];
      if f(rs[i]) {
        cents, count := cents + rs[i].rewardCents, count + 1;
      }
    }
    assert rs[..|rs|] == rs;
  }

  method Dashboard(c: Kalender, rs: seq<Referral>, now: int) returns (u: Uebersicht)
    ensures u.earnedCents == SumWhere(rs, (r: Referral) => Placed(r))
    ensures u.placedCount == CountWhere(rs, (r: Referral) => Placed(r)) && u.referredCount == |rs|
    ensures u.inPlacementCount == CountWhere(rs, (r: Referral) => r.status == IN_PLACEMENT)
    ensures 0 <= u.conversion <= 100 && (rs == [] ==> u.conversion == 0)
    ensures rs != [] ==> u.conversion == Round(u.placedCount as real / |rs| as real * 100.0)
    ensures |u.monthly| == 6
    ensures forall n | 0 <= n < 6 :: u.monthly[n] == Monat((c.monat(now) - (5 - n)) % 12, Bucket(c, rs, now, 5 - n))
  {
    var earned, placed := SumRewards(rs, (r: Referral) => Placed(r));
    var _, inPlacement := SumRewards(rs, (r: Referral) => r.status == IN_PLACEMENT);
    CountBound(rs, (r: Referral) => Placed(r));
    var conversion := 0;
    if |rs| > 0 {
      conversion := Round(placed as real / |rs| as real * 100.0);
      ShareBound(placed, |rs|);
    }
    var monthly: seq<Monat> := [];
    for n := 0 to 6
      invariant |monthly| == n
      invariant forall m | 0 <= m < n :: monthly[m] == Monat((c.monat(now) - (5 - m)) % 12, Bucket(c, rs, now, 5 - m))
    {
      var d := Zurueck(c.jahr(now), c.monat(now), 5 - n);
      var cents, _ :=
        SumRewards(rs, (r: Referral) => Placed(r) && InMonth(c, r, Zurueck(c.jahr(now), c.monat(now), 5 - n)));
      monthly := monthly + [Monat(d.1, cents)];
    }
    u := Uebersicht(earned, |rs|, placed, inPlacement, conversion, monthly);
  }

  lemma ShareBound(part: nat, whole: nat)
    requires part <= whole && whole > 0
    ensures 0 <= Round(part as real / whole as real * 100.0) <= 100
  {
  }

  // ── What the figures mean ───────────────────────────────────────────────────

  /** Only placed referrals carry a reward: the earnings are the sum over all of a partner's referrals. */
  lemma EarnedIsTheWholeSum(rs: seq<Referral>)
    requires forall i | 0 <= i < |rs| :: ReferralOk(rs[i])
    ensures SumWhere(rs, (r: Referral) => Placed(r)) == SumWhere(rs, (r: Referral) => true)
  {
  }

  function BucketSum(c: Kalender, rs: seq<Referral>, now: int, n: nat): nat {
    if n == 0 then 0 else BucketSum(c, rs, now, n - 1) + Bucket(c, rs, now, n - 1)
  }

  /** The first `n` months back, this one included. */
  predicate Since(c: Kalender, r: Referral, now: int, n: nat) {
    Placed(r) && r.placedAt.Some? && Lauf(c, now) - n < Lauf(c, r.placedAt.value) <= Lauf(c, now)
  }

  lemma {:induction false} SumWhereSplits(rs: seq<Referral>, f: Referral -> bool, g: Referral -> bool,
          h: Referral -> bool)
    requires forall i | 0 <= i < |rs| :: !(g(rs[i]) && h(rs[i])) && (f(rs[i]) <==> g(rs[i]) || h(rs[i]))
    ensures SumWhere(rs, f) == SumWhere(rs, g) + SumWhere(rs, h)
  {
    if rs != [] {
      SumWhereSplits(rs[..|rs| - 1], f, g, h);
    }
  }

  /** No referral falls into two of the months, and together they hold exactly what was placed in that time. */
  lemma {:induction false} MonthsAddUp(c: Kalender, rs: seq<Referral>, now: int, n: nat)
    requires CalendarOk(c)
    ensures BucketSum(c, rs, now, n) == SumWhere(rs, (r: Referral) => Since(c, r, now, n))
    ensures forall r: Referral, i: nat, j: nat | i < j ::
              !(&& InMonth(c, r, Zurueck(c.jahr(now), c.monat(now), i))
                && InMonth(c, r, Zurueck(c.jahr(now), c.monat(now), j)))
  {
    forall r: Referral, i: nat, j: nat | i < j && InMonth(c, r, Zurueck(c.jahr(now), c.monat(now), i))
      ensures !InMonth(c, r, Zurueck(c.jahr(now), c.monat(now), j))
    {
      MonthIsIndex(c, r.placedAt.value, now, i);
      MonthIsIndex(c, r.placedAt.value, now, j);
    }
    if n == 0 {
      SumsAgree(rs, (r: Referral) => Since(c, r, now, 0), (r: Referral) => false);
      NoneSum(rs);
    } else {
      MonthsAddUp(c, rs, now, n - 1);
      var f, g := (r: Referral) => Since(c, r, now, n), (r: Referral) => Since(c, r, now, n - 1);
      var h := (r: Referral) => Placed(r) && InMonth(c, r, Zurueck(c.jahr(now), c.monat(now), n - 1));
      forall i | 0 <= i < |rs| ensures !(g(rs[i]) && h(rs[i])) && (f(rs[i]) <==> g(rs[i]) || h(rs[i])) {
        if rs[i].placedAt.Some? {
          MonthIsIndex(c, rs[i].placedAt.value, now, n - 1);
        }
      }
      SumWhereSplits(rs, f, g, h);
    }
  }

  function Cents(): Monat -> nat { (m: Monat) => m.cents }

  lemma {:induction false} MonthlyReversed(c: Kalender, rs: seq<Referral>, now: int, monthly: seq<Monat>, n: nat)
    requires |monthly| == 6 && n <= 6 && forall i | 0 <= i < 6 :: monthly[i].cents == Bucket(c, rs, now, 5 - i)
    ensures SumOf(monthly[..n], Cents()) + BucketSum(c, rs, now, 6 - n) == BucketSum(c, rs, now, 6)
  {
    if n > 0 {
      MonthlyReversed(c, rs, now, monthly, n - 1);
      assert monthly[..n][..n - 1] == monthly[..n - 1];
    }
  }

  /** The six figures of the dashboard add up to exactly the rewards of what was placed in those months. */
  lemma SixMonthsAddUp(c: Kalender, rs: seq<Referral>, now: int, monthly: seq<Monat>)
    requires CalendarOk(c)
    requires |monthly| == 6 && forall i | 0 <= i < 6 :: monthly[i].cents == Bucket(c, rs, now, 5 - i)
    ensures SumOf(monthly, Cents()) == SumWhere(rs, (r: Referral) => Since(c, r, now, 6))
  {
    MonthlyReversed(c, rs, now, monthly, 6);
    assert monthly[..6] == monthly;
    MonthsAddUp(c, rs, now, 6);
  }

  lemma {:induction false} NoneSum(rs: seq<Referral>)
    ensures SumWhere(rs, (r: Referral) => false) == 0
  {
    if rs != [] {
      NoneSum(rs[..|rs| - 1]);
    }
  }

  // ── Ranking ─────────────────────────────────────────────────────────────────

  /** A partner with at least one placement, and how many. */
  datatype Gruppe = Gruppe(partnerId: string, count: nat)

  /** `localeCompare`: zero or less if `a` may stand before `b`. */
  type Vergleich = (string, string) -> int

  ghost predicate StrictOrder(cmp: Vergleich) {
    && (forall a, b :: cmp(a, b) == 0 <==> a == b)
    && (forall a, b :: cmp(a, b) < 0 <==> cmp(b, a) > 0)
    && (forall a, b, c :: cmp(a, b) < 0 && cmp(b, c) < 0 ==> cmp(a, c) < 0)
  }

  predicate RankedBefore(cmp: Vergleich, a: Gruppe, b: Gruppe) {
    b.count < a.count || (b.count == a.count && cmp(a.partnerId, b.partnerId) <= 0)
  }

  /** Strictly ahead: more placements, or as many and an earlier id. */
  predicate Ahead(cmp: Vergleich, a: Gruppe, b: Gruppe) {
    a.count > b.count || (a.count == b.count && cmp(a.partnerId, b.partnerId) < 0)
  }

  ghost predicate OnePerPartner(gs: seq<Gruppe>) {
    forall i, j | 0 <= i < j < |gs| :: gs[i].partnerId != gs[j].partnerId
  }

  /** One for each group ahead of `g`. */
  function AheadOf(cmp: Vergleich, g: Gruppe): Gruppe -> nat { (x: Gruppe) => if Ahead(cmp, x, g) then 1 else 0 }

  function CountAhead(cmp: Vergleich, gs: seq<Gruppe>, g: Gruppe): nat { SumOf(gs, AheadOf(cmp, g)) }

  function Order(cmp: Vergleich): (Gruppe, Gruppe) -> bool { (a: Gruppe, b: Gruppe) => RankedBefore(cmp, a, b) }

  /** The own rank counts those strictly ahead; a partner without a placement comes after everyone who has one. */
  method Ranking(cmp: Vergleich, grouped: seq<Gruppe>, partnerId: string) returns (top: seq<Gruppe>, myRank: nat)
    requires StrictOrder(cmp) && OnePerPartner(grouped)
    ensures |top| == Min(6, |grouped|) && top <= Sorted(Order(cmp), grouped)
    ensures forall g | g in grouped && g.partnerId == partnerId :: myRank == 1 + CountAhead(cmp, grouped, g)
    ensures (forall g | g in grouped :: g.partnerId != partnerId) ==> myRank == |grouped| + 1
  {
    var sorted := Sorted(Order(cmp), grouped);
    SortedRanking(cmp, grouped);
    top := sorted[..Min(6, |sorted|)];
    var idx := 0;
    while idx < |sorted| && sorted[idx].partnerId != partnerId
      invariant idx <= |sorted| && forall i | 0 <= i < idx :: sorted[i].partnerId != partnerId
    {
      idx := idx + 1;
    }
    myRank := idx + 1;
    forall g | g in grouped && g.partnerId == partnerId ensures myRank == 1 + CountAhead(cmp, grouped, g) {
      var i :| 0 <= i < |sorted| && sorted[i] == g;
      RankIsCountAhead(cmp, grouped, sorted, i);
      assert i == idx;
    }
  }

  lemma SortedRanking(cmp: Vergleich, grouped: seq<Gruppe>)
    requires StrictOrder(cmp) && OnePerPartner(grouped)
    ensures var sorted := Sorted(Order(cmp), grouped);
            && multiset(sorted) == multiset(grouped) && |sorted| == |grouped|
            && Ordered(Order(cmp), sorted) && OnePerPartner(sorted)
            && forall g :: g in grouped <==> g in sorted
  {
    assert TotalPreorder(Order(cmp));
    SortedMeans(Order(cmp), grouped);
    var sorted := Sorted(Order(cmp), grouped);
    assert |multiset(sorted)| == |multiset(grouped)|;
    OnePerPartnerStays(sorted, grouped);
    forall g ensures g in grouped <==> g in sorted {
      assert g in multiset(grouped) <==> g in multiset(sorted);
    }
  }

  lemma {:induction false} OnePerPartnerStays(gs: seq<Gruppe>, hs: seq<Gruppe>)
    requires multiset(gs) == multiset(hs) && OnePerPartner(hs)
    ensures OnePerPartner(gs)
    decreases |gs|
  {
    if gs != [] {
      var n := |gs| - 1;
      var i := FindLast(gs, hs);
      var rest := hs[..i] + hs[i + 1..];
      OnePerPartnerStays(gs[..n], rest);
      forall j | 0 <= j < n ensures gs[j].partnerId != gs[n].partnerId {
        assert gs[j] in multiset(gs[..n]) && gs[j] in rest;
        assert hs[i] == gs[n];
      }
    }
  }

  /** In the order, exactly those before a place are ahead of it. */
  lemma RankIsCountAhead(cmp: Vergleich, grouped: seq<Gruppe>, sorted: seq<Gruppe>, idx: nat)
    requires StrictOrder(cmp) && Ordered(Order(cmp), sorted) && OnePerPartner(sorted) && idx < |sorted|
    requires multiset(sorted) == multiset(grouped)
    ensures CountAhead(cmp, grouped, sorted[idx]) == idx
  {
    SumIgnoresOrder(sorted, grouped, AheadOf(cmp, sorted[idx]));
    AheadUpTo(cmp, sorted, idx, |sorted|);
    assert sorted[..|sorted|] == sorted;
  }

  lemma {:induction false} AheadUpTo(cmp: Vergleich, sorted: seq<Gruppe>, idx: nat, n: nat)
    requires StrictOrder(cmp) && Ordered(Order(cmp), sorted) && OnePerPartner(sorted) && idx < |sorted| && n <= |sorted|
    ensures CountAhead(cmp, sorted[..n], sorted[idx]) == Min(n, idx)
  {
    if n > 0 {
      AheadUpTo(cmp, sorted, idx, n - 1);
      assert sorted[..n][..n - 1] == sorted[..n - 1];
      assert n - 1 < idx ==> Order(cmp)(sorted[n - 1], sorted[idx]);
      assert n - 1 > idx ==> Order(cmp)(sorted[idx], sorted[n - 1]);
    }
  }
}
