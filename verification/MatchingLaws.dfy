// What the displayed score says about a posting and a candidate.
module MatchingLaws {
  import opened Common
  import opened ScoreArithmetic
  import opened Matching

  // ── Distance from the exact mean ────────────────────────────────────────────

  /** Weights as they come out of the normalisation: whole numbers from 0 to 5. */
  ghost predicate Normalised(anf: Anforderung) {
    forall key :: IsWeight(Gewicht(anf, key))
  }

  predicate IsWeight(w: real) { w in {0.0, 1.0, 2.0, 3.0, 4.0, 5.0} }

  lemma {:induction false} TermsAreNormal(kat: Katalog, anf: Anforderung, k: Kandidat, keys: seq<Key>)
    requires Normalised(anf)
    ensures Normal(Terms(kat, anf, k, keys))
  {
    if keys != [] {
      TermsAreNormal(kat, anf, k, keys[1..]);
      assert IsWeight(Gewicht(anf, keys[0]));
    }
  }

  lemma {:induction false} TermsArePositive(kat: Katalog, anf: Anforderung, k: Kandidat, keys: seq<Key>)
    ensures Positive(Terms(kat, anf, k, keys))
  {
    if keys != [] {
      TermsArePositive(kat, anf, k, keys[1..]);
    }
  }

  /**
   * The base score is within one point of the exact weighted mean of the
   * criteria that count, hence within one point of their worst and best
   * fulfilment; with nothing to count it is 100.
   */
  lemma BaseScoreBound(kat: Katalog, anf: Anforderung, k: Kandidat, lo: real, hi: real)
    requires Normalised(anf)
    requires forall key | Counted(kat, anf, k, key) :: lo <= Clamp01(Erfuellung(kat, anf, k, key)) <= hi
    ensures var ts := Terms(kat, anf, k, KEYS);
            if ts == [] then Base(kat, anf, k) == 100
            else
              && SumWeight(ts) > 0.0
              && -1.0 <= Base(kat, anf, k) as real - Exact(ts) <= 1.0
              && 100.0 * lo - 1.0 <= Base(kat, anf, k) as real <= 100.0 * hi + 1.0
  {
    var ts := Terms(kat, anf, k, KEYS);
    TermsAreNormal(kat, anf, k, KEYS);
    if ts != [] {
      RoundingBound(ts);
      TermsWithin(kat, anf, k, KEYS, lo, hi);
      ExactBetween(ts, lo, hi);
    }
  }

  lemma {:induction false} TermsWithin(kat: Katalog, anf: Anforderung, k: Kandidat, keys: seq<Key>, lo: real, hi: real)
    requires forall key | Counted(kat, anf, k, key) :: lo <= Clamp01(Erfuellung(kat, anf, k, key)) <= hi
    ensures forall t | t in Terms(kat, anf, k, keys) :: t.weight >= 0.0 && lo <= t.fulfilment <= hi
  {
    if keys != [] {
      TermsWithin(kat, anf, k, keys[1..], lo, hi);
    }
  }

  /** The standard weights are whole numbers from 1 to 5, so cleaned weights keep every posting normalised. */
  lemma CleanWeightsAreNormalised(anf: Anforderung)
    requires anf.gewichte.Some? ==> forall key | key in anf.gewichte.value :: IsWeight(anf.gewichte.value[key])
    ensures Normalised(anf)
    ensures forall key | anf.gewichte.None? || key !in anf.gewichte.value :: 1.0 <= Gewicht(anf, key) <= 5.0
  {
  }

  // ── What a criterion is worth ───────────────────────────────────────────────

  /**
   * Inside the span, or on the right side of the one end that is given, counts in
   * full; below it one step halves and two leave nothing; above it a tenth a step,
   * three at most.
   */
  lemma ErfahrungSteps(min: Option<nat>, max: Option<nat>, stufen: nat)
    requires min.Some? && max.Some? ==> min.value <= max.value
    ensures forall ist: nat ::
              BewerteErfahrung(ist, min, max) == 1.0 <==>
              (min.Some? ==> min.value <= ist) && (max.Some? ==> ist <= max.value)
    ensures min.Some? && 0 < stufen <= min.value ==>
              BewerteErfahrung(min.value - stufen, min, max) == if stufen == 1 then 0.5 else 0.0
    ensures max.Some? ==> BewerteErfahrung(max.value + 1, min, max) == 0.9
    ensures max.Some? ==> BewerteErfahrung(max.value + 2, min, max) == 0.8
    ensures max.Some? && stufen >= 3 ==> BewerteErfahrung(max.value + stufen, min, max) == 0.7
  {
  }

  /** In time counts in full, each month of delay costs the same, and ten months leave nothing. */
  lemma StartSteps(ist: nat, soll: nat)
    ensures BewerteStart(ist, soll) == 1.0 <==> ist <= soll
    ensures BewerteStart(ist, soll) == 0.0 <==> ist >= soll + 10
    ensures soll <= ist < soll + 10 ==> BewerteStart(ist, soll) - BewerteStart(ist + 1, soll) == 0.1
  {
  }

  /** The occupation sought counts in full, a relative from the same trade a little over half, anything else nothing. */
  lemma BerufIff(kat: Katalog, anf: Anforderung, k: Kandidat)
    requires Given(k.beruf)
    ensures BewerteBeruf(kat, anf, k) in {0.0, 0.6, 1.0}
    ensures BewerteBeruf(kat, anf, k) == 1.0 <==> k.beruf.value in anf.berufe
    ensures BewerteBeruf(kat, anf, k) > 0.0 <==>
            || k.beruf.value in anf.berufe
            || (&& Given(k.bereich) && k.bereich.value in kat.berufe
                && exists b | b in kat.berufe[k.bereich.value] :: b in anf.berufe)
  {
  }

  /** Tasks and wishes are shares: all covered is 1, none is 0. */
  lemma {:induction false} ShareEnds(xs: seq<string>, ys: seq<string>)
    ensures CountIn(xs, ys) <= |xs|
    ensures CountIn(xs, ys) == |xs| <==> forall x | x in xs :: x in ys
    ensures CountIn(xs, ys) == 0 <==> forall x | x in xs :: x !in ys
  {
    if xs != [] {
      ShareEnds(xs[1..], ys);
      assert xs == [xs[0]] + xs[1..];
    }
  }

  // ── Raising a weight of a posting ───────────────────────────────────────────

  /** The posting with another weight for one criterion. */
  function Reweighted(anf: Anforderung, key: Key, w: real): Anforderung {
    anf.(gewichte := Some((if anf.gewichte.Some? then anf.gewichte.value else map[])[key := w]))
  }

  lemma ReweightedKeepsRest(kat: Katalog, anf: Anforderung, k: Kandidat, key: Key, w: real, other: Key)
    requires w > 0.0 && Counted(kat, anf, k, key)
    ensures var anf' := Reweighted(anf, key, w);
            && Gewicht(anf', other) == (if other == key then w else Gewicht(anf, other))
            && Counted(kat, anf', k, other) == Counted(kat, anf, k, other)
            && (Applies(kat, anf, k, other) ==> Erfuellung(kat, anf', k, other) == Erfuellung(kat, anf, k, other))
  {
  }

  lemma {:induction false} TermsElsewhere(kat: Katalog, anf: Anforderung, k: Kandidat, keys: seq<Key>, key: Key,
          w: real)
    requires w > 0.0 && Counted(kat, anf, k, key) && key !in keys
    ensures Terms(kat, Reweighted(anf, key, w), k, keys) == Terms(kat, anf, k, keys)
  {
    if keys != [] {
      TermsElsewhere(kat, anf, k, keys[1..], key, w);
      ReweightedKeepsRest(kat, anf, k, key, w, keys[0]);
    }
  }

  /** Changing one weight changes one term, in its weight alone. */
  lemma {:induction false} TermsReweighted(kat: Katalog, anf: Anforderung, k: Kandidat, keys: seq<Key>, key: Key,
          w: real)
    returns (i: nat)
    requires w > 0.0 && Counted(kat, anf, k, key) && key in keys && Distinct(keys)
    ensures var ts := Terms(kat, anf, k, keys);
            && i < |ts| && ts[i] == Term(Gewicht(anf, key), Clamp01(Erfuellung(kat, anf, k, key)))
            && Terms(kat, Reweighted(anf, key, w), k, keys) == ts[i := ts[i].(weight := w)]
  {
    var rest := keys[1..];
    ReweightedKeepsRest(kat, anf, k, key, w, keys[0]);
    if keys[0] == key {
      i := 0;
      TermsElsewhere(kat, anf, k, rest, key, w);
    } else {
      i := TermsReweighted(kat, anf, k, rest, key, w);
      if Counted(kat, anf, k, keys[0]) {
        i := i + 1;
      }
    }
  }

  /**
   * Raising the weight of a criterion the candidate fulfils less (more) than on
   * average strictly lowers (raises) the exact score; the displayed one moves the
   * other way by at most one point.
   */
  lemma PostingWeightShift(kat: Katalog, anf: Anforderung, k: Kandidat, key: Key, w: real)
    requires Normalised(anf) && Counted(kat, anf, k, key) && w > Gewicht(anf, key)
    ensures var anf', f := Reweighted(anf, key, w), 100.0 * Clamp01(Erfuellung(kat, anf, k, key));
            var ts, us := Terms(kat, anf, k, KEYS), Terms(kat, anf', k, KEYS);
            && SumWeight(ts) > 0.0 && SumWeight(us) > 0.0
            && (f < Exact(ts) ==> Exact(us) < Exact(ts) && Base(kat, anf', k) <= Base(kat, anf, k) + 1)
            && (f > Exact(ts) ==> Exact(us) > Exact(ts) && Base(kat, anf', k) >= Base(kat, anf, k) - 1)
  {
    assert key in KEYS by {
      EveryKeyListed(key);
    }
    var i := TermsReweighted(kat, anf, k, KEYS, key, w);
    TermsAreNormal(kat, anf, k, KEYS);
    WeightShift(Terms(kat, anf, k, KEYS), i, w);
  }

  lemma EveryKeyListed(key: Key)
    ensures key in KEYS
  {
  }

  // ── How close to a point the error comes ────────────────────────────────────

  lemma {:induction false} CountInAppend(xs: seq<string>, ys: seq<string>, zs: seq<string>)
    ensures CountIn(xs + ys, zs) == CountIn(xs, zs) + CountIn(ys, zs)
  {
    if xs == [] {
      assert xs + ys == ys;
    } else {
      CountInAppend(xs[1..], ys, zs);
      assert (xs + ys)[1..] == xs[1..] + ys;
    }
  }

  lemma CountInPart(has: seq<string>, hasNot: seq<string>)
    requires forall x | x in hasNot :: x !in has
    ensures CountIn(has + hasNot, has) == |has|
  {
    CountInAppend(has, hasNot, has);
    ShareEnds(has, has);
    ShareEnds(hasNot, has);
  }

  /** Tasks and wishes only, both with weight 1. */
  function SharesOnly(aufgaben: seq<string>, gebotenes: seq<string>): Anforderung {
    Anforderung([], [], None, aufgaben, 0, None, None, None, None, None, gebotenes, None,
                Some(map[AUFGABEN := 1.0, PRIORITAETEN := 1.0]))
  }

  function AnsweredOnly(aufgaben: seq<string>, prioritaeten: seq<string>): Kandidat {
    Kandidat(None, None, None, aufgaben, None, prioritaeten, None, None, None, None)
  }

  lemma {:induction false} NoTerms(kat: Katalog, anf: Anforderung, k: Kandidat, keys: seq<Key>)
    requires forall key | key in keys :: !Counted(kat, anf, k, key)
    ensures Terms(kat, anf, k, keys) == []
  {
    if keys != [] {
      NoTerms(kat, anf, k, keys[1..]);
    }
  }

  lemma SharesShown()
    ensures var ts := [Term(1.0, 5.0 / 9.0), Term(1.0, 2.0 / 7.0)];
            SumWeight(ts) == 2.0 && Exact(ts) == 2650.0 / 63.0 && Shown(ts) == 43
  {
    var ts := [Term(1.0, 5.0 / 9.0), Term(1.0, 2.0 / 7.0)];
    assert ts[1..] == [Term(1.0, 2.0 / 7.0)] && ts[1..][1..] == [];
    assert Round2(Penalty(ts[0])) == 0.44 && Round2(Penalty(ts[1])) == 0.71;
    assert SumRounded(ts) == 1.15 && Round2(1.15) == 1.15;
  }

  /**
   * A posting that seeks nine tasks and offers two things, and a candidate who
   * covers five of the tasks and has seven wishes: 42.06 is shown as 43.
   */
  lemma BoundNearlyAttained(kat: Katalog, covered: seq<string>, missing: seq<string>, met: seq<string>,
          unmet: seq<string>)
    requires |covered| == 5 && |missing| == 4 && forall x | x in missing :: x !in covered
    requires |met| == 2 && |unmet| == 5 && forall x | x in unmet :: x !in met
    ensures var anf, k := SharesOnly(covered + missing, met), AnsweredOnly(covered, met + unmet);
            var ts := Terms(kat, anf, k, KEYS);
            && NoKnockout(kat, anf, k, None) && SumWeight(ts) > 0.0
            && Base(kat, anf, k) == 43 && Exact(ts) == 2650.0 / 63.0
  {
    PassesWithShares(kat, covered + missing, met, covered, met + unmet);
    ShareOf(covered, missing, 5.0 / 9.0);
    ShareOf(met, unmet, 2.0 / 7.0);
    TermsOfShares(kat, SharesOnly(covered + missing, met), AnsweredOnly(covered, met + unmet));
    SharesShown();
  }

  lemma PassesWithShares(kat: Katalog, aufgaben: seq<string>, gebotenes: seq<string>, eigene: seq<string>,
          prioritaeten: seq<string>)
    ensures NoKnockout(kat, SharesOnly(aufgaben, gebotenes), AnsweredOnly(eigene, prioritaeten), None)
  {
  }

  lemma ShareOf(has: seq<string>, hasNot: seq<string>, share: real)
    requires has != [] && (forall x | x in hasNot :: x !in has) && share == |has| as real / (|has| + |hasNot|) as real
    ensures Clamp01(CountIn(has + hasNot, has) as real / |has + hasNot| as real) == share
  {
    CountInPart(has, hasNot);
    assert |has + hasNot| == |has| + |hasNot|;
    ClampedShare(|has|, |has + hasNot|);
  }

  lemma ClampedShare(part: nat, whole: nat)
    requires part <= whole && whole > 0
    ensures Clamp01(part as real / whole as real) == part as real / whole as real
  {
    var share := part as real / whole as real;
    assert share * whole as real == part as real;
    assert 0.0 <= share <= 1.0;
  }

  /** Two criteria count, each with the share that is covered. */
  lemma TermsOfShares(kat: Katalog, anf: Anforderung, k: Kandidat)
    requires anf == SharesOnly(anf.aufgaben, anf.gebotenes) && k == AnsweredOnly(k.aufgaben, k.prioritaeten)
    requires anf.aufgaben != [] && k.aufgaben != [] && anf.gebotenes != [] && k.prioritaeten != []
    ensures Terms(kat, anf, k, KEYS) ==
            [Term(1.0, Clamp01(CountIn(anf.aufgaben, k.aufgaben) as real / |anf.aufgaben| as real)),
             Term(1.0, Clamp01(CountIn(k.prioritaeten, anf.gebotenes) as real / |k.prioritaeten| as real))]
  {
    NoTerms(kat, anf, k, KEYS[4..]);
    FirstTermOf(kat, anf, k, KEYS[3..]);
    FirstTermOf(kat, anf, k, KEYS[2..]);
    FirstTermOf(kat, anf, k, KEYS[1..]);
    FirstTermOf(kat, anf, k, KEYS);
  }

  lemma FirstTermOf(kat: Katalog, anf: Anforderung, k: Kandidat, keys: seq<Key>)
    requires keys != []
    ensures Terms(kat, anf, k, keys) ==
            if Counted(kat, anf, k, keys[0])
            then [Term(Gewicht(anf, keys[0]), Clamp01(Erfuellung(kat, anf, k, keys[0])))]
                 + Terms(kat, anf, k, keys[1..])
            else Terms(kat, anf, k, keys[1..])
  {
  }

  // ── Improving an answer ─────────────────────────────────────────────────────

  /** The same criteria count, and the second candidate fulfils each at least as well. */
  ghost predicate NoWorse(kat: Katalog, anf: Anforderung, k: Kandidat, k': Kandidat) {
    forall key ::
      && Applies(kat, anf, k, key) == Applies(kat, anf, k', key)
      && (Applies(kat, anf, k, key) ==> Erfuellung(kat, anf, k, key) <= Erfuellung(kat, anf, k', key))
  }

  lemma {:induction false} TermsNoWorse(kat: Katalog, anf: Anforderung, k: Kandidat, k': Kandidat, keys: seq<Key>)
    requires NoWorse(kat, anf, k, k')
    ensures AtLeastAsGood(Terms(kat, anf, k, keys), Terms(kat, anf, k', keys))
  {
    if keys != [] {
      TermsNoWorse(kat, anf, k, k', keys[1..]);
      var head, tail := keys[0], keys[1..];
      assert Applies(kat, anf, k, head) == Applies(kat, anf, k', head);
    }
  }

  /** Same criteria, no worse fulfilment: no lower score, rounding included. */
  lemma BaseMonotone(kat: Katalog, anf: Anforderung, k: Kandidat, k': Kandidat)
    requires NoWorse(kat, anf, k, k')
    ensures Base(kat, anf, k) <= Base(kat, anf, k')
  {
    TermsNoWorse(kat, anf, k, k', KEYS);
    TermsArePositive(kat, anf, k, KEYS);
    ShownMonotone(Terms(kat, anf, k, KEYS), Terms(kat, anf, k', KEYS));
  }

  /** Neither a lower score nor a knockout the first candidate did not have. */
  ghost predicate Improves(kat: Katalog, anf: Anforderung, k: Kandidat, k': Kandidat, lage: Option<Lage>) {
    && Base(kat, anf, k) <= Base(kat, anf, k')
    && forall g | Fails(kat, anf, k', lage, g) :: Fails(kat, anf, k, lage, g)
  }

  lemma {:induction false} CountInMonotone(xs: seq<string>, ys: seq<string>, zs: seq<string>)
    requires forall y | y in ys :: y in zs
    ensures CountIn(xs, ys) <= CountIn(xs, zs) <= |xs|
  {
    if xs != [] {
      CountInMonotone(xs[1..], ys, zs);
    }
  }

  /** Covering further tasks, from a nonempty list. */
  lemma MoreTasks(kat: Katalog, anf: Anforderung, k: Kandidat, weitere: seq<string>, lage: Option<Lage>)
    requires k.aufgaben != []
    ensures Improves(kat, anf, k, k.(aufgaben := k.aufgaben + weitere), lage)
  {
    var k' := k.(aufgaben := k.aufgaben + weitere);
    CountInMonotone(anf.aufgaben, k.aufgaben, k'.aufgaben);
    if anf.aufgaben != [] {
      DivideMonotone(CountIn(anf.aufgaben, k.aufgaben) as real, CountIn(anf.aufgaben, k'.aufgaben) as real,
                     |anf.aufgaben| as real);
    }
    forall key
      ensures Applies(kat, anf, k, key) == Applies(kat, anf, k', key)
      ensures Applies(kat, anf, k, key) ==> Erfuellung(kat, anf, k, key) <= Erfuellung(kat, anf, k', key)
    {
      match key
      case _ =>
    }
    BaseMonotone(kat, anf, k, k');
  }

  lemma ErfahrungMonotone(ist: nat, mehr: nat, min: Option<nat>, max: Option<nat>)
    requires ist <= mehr && (max.Some? ==> mehr <= max.value)
    ensures BewerteErfahrung(ist, min, max) <= BewerteErfahrung(mehr, min, max)
  {
  }

  /** More experience, up to the upper end of the span. */
  lemma MoreExperience(kat: Katalog, anf: Anforderung, k: Kandidat, mehr: string, lage: Option<Lage>)
    requires Rang(kat.erfahrung, k.erfahrung).Some? && mehr in kat.erfahrung
    requires Rang(kat.erfahrung, k.erfahrung).value <= kat.erfahrung[mehr]
    requires Rang(kat.erfahrung, anf.erfahrungMax).Some?
             ==> kat.erfahrung[mehr] <= Rang(kat.erfahrung, anf.erfahrungMax).value
    ensures Improves(kat, anf, k, k.(erfahrung := Some(mehr)), lage)
  {
    var k' := k.(erfahrung := Some(mehr));
    ErfahrungMonotone(Rang(kat.erfahrung, k.erfahrung).value, kat.erfahrung[mehr],
                      Rang(kat.erfahrung, anf.erfahrungMin), Rang(kat.erfahrung, anf.erfahrungMax));
    BaseMonotone(kat, anf, k, k');
  }

  lemma StartMonotone(ist: nat, frueher: nat, soll: nat)
    requires frueher <= ist
    ensures BewerteStart(ist, soll) <= BewerteStart(frueher, soll)
  {
  }

  /** Starting earlier. */
  lemma EarlierStart(kat: Katalog, anf: Anforderung, k: Kandidat, frueher: string, lage: Option<Lage>)
    requires Rang(kat.start, k.start).Some? && frueher in kat.start
    requires kat.start[frueher] <= Rang(kat.start, k.start).value
    ensures Improves(kat, anf, k, k.(start := Some(frueher)), lage)
  {
    var k' := k.(start := Some(frueher));
    if Rang(kat.start, anf.startBis).Some? {
      StartMonotone(Rang(kat.start, k.start).value, kat.start[frueher], Rang(kat.start, anf.startBis).value);
    }
    BaseMonotone(kat, anf, k, k');
  }

  /**
   * A better licence can score lower in exactly one case: class C is sought, and
   * class B replaces being in driving school.
   */
  lemma LicenceMonotoneIff(soll: string, ist: string, besser: string)
    requires soll in FUEHRERSCHEINE && ist in FUEHRERSCHEINE && besser in FUEHRERSCHEINE
    requires FUEHRERSCHEINE[ist] <= FUEHRERSCHEINE[besser]
    ensures BewerteFuehrerschein(FUEHRERSCHEINE[besser], FUEHRERSCHEINE[soll], Some(besser))
            < BewerteFuehrerschein(FUEHRERSCHEINE[ist], FUEHRERSCHEINE[soll], Some(ist))
            <==> soll == "c" && ist == "fahrschule" && besser == "b"
  {
  }
}
