// Declined offers as feedback: the fold over a worker's refusals, the deductions
// it leads to, and what they do to the score of a job.
module Feedback {
  import opened Common
  import opened Matching
  import opened Location

  // ── The fold ────────────────────────────────────────────────────────────────

  datatype Absagegrund = ZuWeit | Gehalt | Anderer

  /** A declined offer, with the posting's company, upper salary and place. */
  datatype Angebot = Angebot(
    companyId: string,
    grund: Absagegrund,
    salaryMax: Option<int>,
    lat: Option<real>,
    lng: Option<real>)

  datatype Arbeiter = Arbeiter(dist: Distance, orte: seq<Arbeitsort>)

  datatype Kontext = Kontext(
    byCompany: map<string, nat>,
    zuWeitCount: nat,
    zuWeitMinuten: Option<int>,
    gehaltCount: nat,
    gehaltDeclinedMax: Option<int>)

  const LEER := Kontext(map[], 0, None, 0, None)

  function TravelMinutes(km: real): int { Round(km * 1.2 + 5.0) }

  /** The distance is rounded to a tenth before it becomes a driving time. */
  function Minuten(w: Arbeiter, lat: Option<real>, lng: Option<real>): Option<int> {
    var near := Nearest(w.dist, w.orte, lat, lng);
    if near.None? then None else Some(TravelMinutes(Round(near.value.km * 10.0) as real / 10.0))
  }

  function Count(m: map<string, nat>, c: string): nat { if c in m then m[c] else 0 }

  function Least(a: Option<int>, b: Option<int>): Option<int> {
    if b.None? then a else Some(Min(if a.Some? then a.value else b.value, b.value))
  }

  /** A salary maximum starts from zero. */
  function Most(a: Option<int>, b: Option<int>): Option<int> {
    if b.None? then a else Some(Max(if a.Some? then a.value else 0, b.value))
  }

  function Add(w: Arbeiter, ctx: Kontext, o: Angebot): Kontext {
    Kontext(
      ctx.byCompany[o.companyId := Count(ctx.byCompany, o.companyId) + 1],
      if o.grund == ZuWeit then ctx.zuWeitCount + 1 else ctx.zuWeitCount,
      if o.grund == ZuWeit then Least(ctx.zuWeitMinuten, Minuten(w, o.lat, o.lng)) else ctx.zuWeitMinuten,
      if o.grund == Gehalt then ctx.gehaltCount + 1 else ctx.gehaltCount,
      if o.grund == Gehalt then Most(ctx.gehaltDeclinedMax, o.salaryMax) else ctx.gehaltDeclinedMax)
  }

  function Fold(w: Arbeiter, os: seq<Angebot>): Kontext {
    if os == [] then LEER else Add(w, Fold(w, os[..|os| - 1]), os[|os| - 1])
  }

  method DeclineContext(w: Arbeiter, declined: seq<Angebot>) returns (ctx: Kontext)
    ensures ctx == Fold(w, declined)
  {
    var byCompany: map<string, nat> := map[];
    var zuWeitCount, gehaltCount := 0, 0;
    var zuWeitMinuten, gehaltDeclinedMax: Option<int> := None, None;
    for i := 0 to |declined|
      invariant Kontext(byCompany, zuWeitCount, zuWeitMinuten, gehaltCount, gehaltDeclinedMax) == Fold(w, declined[..i])
    {
      assert declined[..i + 1][..i] == declined[..i];
      var o := declined[i];
      var sofar := if o.companyId in byCompany then byCompany[o.companyId] else 0;
      byCompany := byCompany[o.companyId := sofar + 1];
      if o.grund == ZuWeit {
        zuWeitCount := zuWeitCount + 1;
        var near := NearestLocation(w.dist, w.orte, o.lat, o.lng);
        if near.Some? {
          var minuten := TravelMinutes(Round(near.value.km * 10.0) as real / 10.0);
          zuWeitMinuten := Some(Min(if zuWeitMinuten.Some? then zuWeitMinuten.value else minuten, minuten));
        }
      }
      if o.grund == Gehalt {
        gehaltCount := gehaltCount + 1;
        if o.salaryMax.Some? {
          gehaltDeclinedMax :=
            Some(Max(if gehaltDeclinedMax.Some? then gehaltDeclinedMax.value else 0, o.salaryMax.value));
        }
      }
    }
    assert declined[..|declined|] == declined;
    ctx := Kontext(byCompany, zuWeitCount, zuWeitMinuten, gehaltCount, gehaltDeclinedMax);
  }

  // ── What the fold says ──────────────────────────────────────────────────────

  function CountCompany(os: seq<Angebot>, c: string): nat {
    if os == [] then 0 else CountCompany(os[..|os| - 1], c) + if os[|os| - 1].companyId == c then 1 else 0
  }

  function CountGrund(os: seq<Angebot>, g: Absagegrund): nat {
    if os == [] then 0 else CountGrund(os[..|os| - 1], g) + if os[|os| - 1].grund == g then 1 else 0
  }

  /** `m` is the shortest known driving time among the refusals for distance. */
  ghost predicate ShortestTooFar(w: Arbeiter, os: seq<Angebot>, m: Option<int>) {
    && (m.Some? ==> exists o | o in os :: o.grund == ZuWeit && Minuten(w, o.lat, o.lng) == m)
    && forall o | o in os && o.grund == ZuWeit && Minuten(w, o.lat, o.lng).Some? ::
         m.Some? && m.value <= Minuten(w, o.lat, o.lng).value
  }

  /** `s` is the highest known salary among the refusals for pay, but at least zero. */
  ghost predicate HighestRefused(os: seq<Angebot>, s: Option<int>) {
    && (s.Some? ==>
          exists o | o in os :: o.grund == Gehalt && o.salaryMax.Some? && s.value == Max(0, o.salaryMax.value))
    && forall o | o in os && o.grund == Gehalt && o.salaryMax.Some? :: s.Some? && o.salaryMax.value <= s.value
  }

  lemma {:induction false} FoldMeans(w: Arbeiter, os: seq<Angebot>)
    ensures var ctx := Fold(w, os);
            && (forall c :: Count(ctx.byCompany, c) == CountCompany(os, c))
            && ctx.zuWeitCount == CountGrund(os, ZuWeit)
            && ctx.gehaltCount == CountGrund(os, Gehalt)
            && ShortestTooFar(w, os, ctx.zuWeitMinuten)
            && HighestRefused(os, ctx.gehaltDeclinedMax)
  {
    if os != [] {
      var n := |os| - 1;
      FoldMeans(w, os[..n]);
      assert os == os[..n] + [os[n]];
    }
  }

  lemma AddCommutes(w: Arbeiter, ctx: Kontext, a: Angebot, b: Angebot)
    ensures Add(w, Add(w, ctx, a), b) == Add(w, Add(w, ctx, b), a)
  {
  }

  lemma {:induction false} FoldMovesLast(w: Arbeiter, vor: seq<Angebot>, o: Angebot, nach: seq<Angebot>)
    ensures Fold(w, vor + [o] + nach) == Add(w, Fold(w, vor + nach), o)
    decreases |nach|
  {
    if nach == [] {
      assert vor + [o] + nach == vor + [o] && vor + nach == vor;
      assert (vor + [o])[..|vor|] == vor;
    } else {
      var n := |nach| - 1;
      FoldMovesLast(w, vor, o, nach[..n]);
      assert (vor + [o] + nach)[..|vor| + 1 + n] == vor + [o] + nach[..n];
      assert (vor + nach)[..|vor| + n] == vor + nach[..n];
      AddCommutes(w, Fold(w, vor + nach[..n]), o, nach[n]);
    }
  }

  /** The order in which the offers are read does not matter. */
  lemma {:induction false} FoldIgnoresOrder(w: Arbeiter, os: seq<Angebot>, ps: seq<Angebot>)
    requires multiset(os) == multiset(ps)
    ensures Fold(w, os) == Fold(w, ps)
    decreases |os|
  {
    if os == [] {
      assert |multiset(ps)| == 0;
    } else {
      var n := |os| - 1;
      var i := FindLast(os, ps);
      var vor, nach := ps[..i], ps[i + 1..];
      FoldIgnoresOrder(w, os[..n], vor + nach);
      FoldMovesLast(w, vor, os[n], nach);
    }
  }

  // ── Deductions ──────────────────────────────────────────────────────────────

  datatype AbzugId = DECLINED_COMPANY | DECLINED_ZU_WEIT | DECLINED_GEHALT

  datatype Abzug = Abzug(id: AbzugId, points: nat)

  datatype Stelle = Stelle(companyId: string, travelMinutes: Option<int>, salaryMax: Option<int>)

  const ZU_WEIT_FALLBACK_MIN := 45

  function Grenze(ctx: Kontext): int {
    Max(15, if ctx.zuWeitMinuten.Some? then ctx.zuWeitMinuten.value else ZU_WEIT_FALLBACK_MIN)
  }

  predicate TooFar(ctx: Kontext, job: Stelle) {
    ctx.zuWeitCount >= 2 && job.travelMinutes.Some? && job.travelMinutes.value >= Grenze(ctx)
  }

  predicate PaysTooLittle(ctx: Kontext, job: Stelle) {
    && ctx.gehaltCount >= 2 && ctx.gehaltDeclinedMax.Some? && job.salaryMax.Some?
    && job.salaryMax.value <= ctx.gehaltDeclinedMax.value
  }

  function Points(abzuege: seq<Abzug>): nat {
    if abzuege == [] then 0 else Points(abzuege[..|abzuege| - 1]) + abzuege[|abzuege| - 1].points
  }

  function PointsFor(ctx: Kontext, job: Stelle, id: AbzugId): nat {
    match id
    case DECLINED_COMPANY => Min(20, Count(ctx.byCompany, job.companyId) * 8)
    case DECLINED_ZU_WEIT => if TooFar(ctx, job) then 10 else 0
    case DECLINED_GEHALT => if PaysTooLittle(ctx, job) then 10 else 0
  }

  function AbzugNr(id: AbzugId): nat {
    match id
    case DECLINED_COMPANY => 0
    case DECLINED_ZU_WEIT => 1
    case DECLINED_GEHALT => 2
  }

  /** The sum of the first `n` rules. */
  function DeductionUpTo(ctx: Kontext, job: Stelle, n: nat): nat {
    (if n > 0 then PointsFor(ctx, job, DECLINED_COMPANY) else 0)
    + (if n > 1 then PointsFor(ctx, job, DECLINED_ZU_WEIT) else 0)
    + if n > 2 then PointsFor(ctx, job, DECLINED_GEHALT) else 0
  }

  function Deduction(ctx: Kontext, job: Stelle): nat { DeductionUpTo(ctx, job, 3) }

  /** `abzuege` lists exactly what the first `n` rules deduct. */
  ghost predicate Drawn(ctx: Kontext, job: Stelle, abzuege: seq<Abzug>, n: nat) {
    && (forall a :: a in abzuege <==> AbzugNr(a.id) < n && a.points == PointsFor(ctx, job, a.id) && a.points > 0)
    && Points(abzuege) == DeductionUpTo(ctx, job, n)
  }

  method Ziehe(ctx: Kontext, job: Stelle, bisher: seq<Abzug>, id: AbzugId, points: nat) returns (abzuege: seq<Abzug>)
    requires Drawn(ctx, job, bisher, AbzugNr(id)) && points == PointsFor(ctx, job, id)
    ensures Drawn(ctx, job, abzuege, AbzugNr(id) + 1)
  {
    abzuege := bisher;
    if points > 0 {
      abzuege := abzuege + [Abzug(id, points)];
      assert abzuege[..|bisher|] == bisher;
    }
    assert forall other :: AbzugNr(other) == AbzugNr(id) ==> other == id;
  }

  method DeclineAdjustments(ctx: Kontext, job: Stelle) returns (abzuege: seq<Abzug>)
    ensures forall a :: a in abzuege <==> a.points == PointsFor(ctx, job, a.id) && a.points > 0
    ensures Points(abzuege) == Deduction(ctx, job)
  {
    var declined := Count(ctx.byCompany, job.companyId);
    abzuege := Ziehe(ctx, job, [], DECLINED_COMPANY, Min(20, declined * 8));
    var zuWeit := 0;
    if ctx.zuWeitCount >= 2 && job.travelMinutes.Some? {
      var grenze := Max(15, if ctx.zuWeitMinuten.Some? then ctx.zuWeitMinuten.value else ZU_WEIT_FALLBACK_MIN);
      if job.travelMinutes.value >= grenze {
        zuWeit := 10;
      }
    }
    abzuege := Ziehe(ctx, job, abzuege, DECLINED_ZU_WEIT, zuWeit);
    var gehalt := 0;
    if ctx.gehaltCount >= 2 && ctx.gehaltDeclinedMax.Some? && job.salaryMax.Some?
       && job.salaryMax.value <= ctx.gehaltDeclinedMax.value {
      gehalt := 10;
    }
    abzuege := Ziehe(ctx, job, abzuege, DECLINED_GEHALT, gehalt);
  }

  /** Nothing to deduct, or a knockout: the breakdown stays as it is. */
  function ApplyAdjustments(b: Breakdown, abzuege: seq<Abzug>): Breakdown {
    if abzuege == [] || !b.passed then b else b.(score := Max(0, b.baseScore - Points(abzuege)))
  }

  /** The final score of a job that passes, after the refusals `os`. */
  function Endscore(w: Arbeiter, os: seq<Angebot>, job: Stelle, base: int): int {
    Max(0, base - Deduction(Fold(w, os), job))
  }

  /** Deduct what the refusals call for. */
  method Score(w: Arbeiter, declined: seq<Angebot>, job: Stelle, b: Breakdown) returns (r: Breakdown)
    requires b.score == b.baseScore && 0 <= b.baseScore <= 100 && (!b.passed ==> b.baseScore == 0)
    ensures r == b.(score := r.score)
    ensures r.score == if b.passed then Endscore(w, declined, job, b.baseScore) else 0
    ensures Max(0, b.baseScore - 40) <= r.score <= b.baseScore
  {
    var ctx := DeclineContext(w, declined);
    var abzuege := DeclineAdjustments(ctx, job);
    r := ApplyAdjustments(b, abzuege);
  }

  // ── The rules in terms of the refusals ──────────────────────────────────────

  /** Five minutes to start with, and an hour for every 50 km. */
  lemma TravelTime(km: real, further: real)
    ensures TravelMinutes(0.0) == 5 && TravelMinutes(km + 50.0) == TravelMinutes(km) + 60
    ensures km <= further ==> TravelMinutes(km) <= TravelMinutes(further)
  {
    assert (km + 50.0) * 1.2 + 5.0 + 0.5 == km * 1.2 + 5.0 + 0.5 + 60.0;
  }

  /**
   * The estimated time is within 34 seconds of five minutes and 1.2 minutes for
   * every km to the nearest place; and it depends on the distance shown alone,
   * which has one decimal.
   */
  lemma MinutenMeans(w: Arbeiter, lat: real, lng: real, i: nat)
    requires i < |w.orte| && FirstNearest(w.dist, w.orte, lat, lng, i)
    ensures var m, km := Minuten(w, Some(lat), Some(lng)), w.dist(w.orte[i].lat, w.orte[i].lng, lat, lng);
            && m.Some? && 5.0 + 1.2 * km - 0.56 <= m.value as real <= 5.0 + 1.2 * km + 0.56
            && forall shown: real | shown * 10.0 == Round(km * 10.0) as real :: m.value == TravelMinutes(shown)
  {
    NearestIsFirstNearest(w.dist, w.orte, lat, lng);
    var j :| Answer(w.dist, w.orte, lat, lng, j);
    FirstNearestIsUnique(w.dist, w.orte, lat, lng, i, j);
    var km := Km(w.dist, w.orte[i], lat, lng);
    RoundIsNearest(km * 10.0);
    RoundIsNearest(Round(km * 10.0) as real / 10.0 * 1.2 + 5.0);
  }

  /** One refused offer of a company costs its other jobs 8 points, two cost 16, more cost 20. */
  lemma CompanyRule(w: Arbeiter, os: seq<Angebot>, job: Stelle)
    ensures var n := CountCompany(os, job.companyId);
            PointsFor(Fold(w, os), job, DECLINED_COMPANY)
            == if n == 0 then 0 else if n == 1 then 8 else if n == 2 then 16 else 20
  {
    FoldMeans(w, os);
  }

  /** At least a quarter of an hour, and as long as some job refused for distance, or 45 minutes if no time is known. */
  ghost predicate FarAsRefused(w: Arbeiter, os: seq<Angebot>, minutes: Option<int>) {
    && CountGrund(os, ZuWeit) >= 2 && minutes.Some? && minutes.value >= 15
    && if exists o | o in os :: o.grund == ZuWeit && Minuten(w, o.lat, o.lng).Some?
       then exists o | o in os :: o.grund == ZuWeit && Minuten(w, o.lat, o.lng).Some?
                                  && Minuten(w, o.lat, o.lng).value <= minutes.value
       else minutes.value >= 45
  }

  /** Ten points from the second refusal for distance on, and otherwise none. */
  lemma TooFarRule(w: Arbeiter, os: seq<Angebot>, job: Stelle)
    ensures PointsFor(Fold(w, os), job, DECLINED_ZU_WEIT) == if FarAsRefused(w, os, job.travelMinutes) then 10 else 0
  {
    FoldMeans(w, os);
  }

  /** No more than some job refused for its pay. */
  ghost predicate PaysAsRefused(os: seq<Angebot>, salaryMax: Option<int>) {
    && CountGrund(os, Gehalt) >= 2 && salaryMax.Some?
    && exists o | o in os :: o.grund == Gehalt && o.salaryMax.Some? && salaryMax.value <= Max(0, o.salaryMax.value)
  }

  /** Ten points from the second refusal for pay on, and otherwise none. */
  lemma PayRule(w: Arbeiter, os: seq<Angebot>, job: Stelle)
    ensures PointsFor(Fold(w, os), job, DECLINED_GEHALT) == if PaysAsRefused(os, job.salaryMax) then 10 else 0
  {
    FoldMeans(w, os);
  }

  // ── One more refusal ────────────────────────────────────────────────────────

  /** The one way in which a further refusal lifts the too-far limit above the job. */
  ghost predicate LimitLifted(w: Arbeiter, os: seq<Angebot>, o: Angebot, job: Stelle) {
    && CountGrund(os, ZuWeit) >= 2
    && (forall p | p in os && p.grund == ZuWeit :: Minuten(w, p.lat, p.lng).None?)
    && o.grund == ZuWeit && Minuten(w, o.lat, o.lng).Some? && job.travelMinutes.Some?
    && 45 <= job.travelMinutes.value < Minuten(w, o.lat, o.lng).value
  }

  lemma FoldAppend(w: Arbeiter, os: seq<Angebot>, o: Angebot)
    ensures Fold(w, os + [o]) == Add(w, Fold(w, os), o)
  {
  }

  lemma LiftedIff(w: Arbeiter, os: seq<Angebot>, o: Angebot, job: Stelle)
    ensures TooFar(Fold(w, os), job) && !TooFar(Fold(w, os + [o]), job) <==> LimitLifted(w, os, o, job)
  {
    FoldMeans(w, os);
    FoldAppend(w, os, o);
  }

  /** Everything else only adds points, and fewer than the ten a lifted limit gives back. */
  lemma DeductionDropsIff(w: Arbeiter, os: seq<Angebot>, o: Angebot, job: Stelle)
    ensures Deduction(Fold(w, os + [o]), job) < Deduction(Fold(w, os), job) <==> LimitLifted(w, os, o, job)
  {
    LiftedIff(w, os, o, job);
    FoldAppend(w, os, o);
    var before, after := Fold(w, os), Fold(w, os + [o]);
    assert PointsFor(before, job, DECLINED_COMPANY) <= PointsFor(after, job, DECLINED_COMPANY)
           <= PointsFor(before, job, DECLINED_COMPANY) + 8;
    assert PaysTooLittle(before, job) ==> PaysTooLittle(after, job);
    assert o.grund == ZuWeit ==> PaysTooLittle(before, job) == PaysTooLittle(after, job);
  }

  /** A further refusal raises a job's final score exactly by lifting the limit, if there is anything to give back. */
  lemma RefusalRaisesIff(w: Arbeiter, os: seq<Angebot>, o: Angebot, job: Stelle, base: int)
    ensures Endscore(w, os, job, base) < Endscore(w, os + [o], job, base) <==>
            LimitLifted(w, os, o, job) && Deduction(Fold(w, os + [o]), job) < base
  {
    DeductionDropsIff(w, os, o, job);
  }

  /**
   * Some job gains from a further refusal exactly when it is the first one for distance
   * that names a time over 45 minutes.
   */
  lemma RefusalCanRaiseIff(w: Arbeiter, os: seq<Angebot>, o: Angebot)
    ensures (exists job, base: nat :: base <= 100 && Endscore(w, os, job, base) < Endscore(w, os + [o], job, base)) <==>
            && CountGrund(os, ZuWeit) >= 2
            && (forall p | p in os && p.grund == ZuWeit :: Minuten(w, p.lat, p.lng).None?)
            && o.grund == ZuWeit && Minuten(w, o.lat, o.lng).Some? && Minuten(w, o.lat, o.lng).value > 45
  {
    if job, base: nat :| base <= 100 && Endscore(w, os, job, base) < Endscore(w, os + [o], job, base) {
      RefusalRaisesIff(w, os, o, job, base);
    }
    var job := Stelle("", Some(45), None);
    RefusalRaisesIff(w, os, o, job, 100);
  }
}
