// The two-stage matching: hard knockouts, then a weighted score over the criteria
// that can be judged. Everything holds for any catalogue of scales and trades.
module Matching {
  import opened Common
  import opened ScoreArithmetic

  // ── Profiles ────────────────────────────────────────────────────────────────

  datatype Key = AUFGABEN | ERFAHRUNG | BERUF | PRIORITAETEN | FUEHRERSCHEIN | START

  const KEYS: seq<Key> := [AUFGABEN, ERFAHRUNG, BERUF, PRIORITAETEN, FUEHRERSCHEIN, START]

  function StandardWeight(key: Key): real {
    match key
    case AUFGABEN => 5.0
    case ERFAHRUNG => 4.0
    case BERUF => 3.0
    case PRIORITAETEN => 2.0
    case FUEHRERSCHEIN => 2.0
    case START => 1.0
  }

  /** The ordered scales, and the occupations of each trade. */
  datatype Katalog = Katalog(
    ausbildung: map<string, nat>,
    erfahrung: map<string, nat>,
    montage: map<string, nat>,
    fuehrerschein: map<string, nat>,
    deutsch: map<string, nat>,
    start: map<string, nat>,
    berufe: map<string, seq<string>>)

  /** The licence scale as the service ships it. */
  const FUEHRERSCHEINE: map<string, nat> := map["nein" := 0, "fahrschule" := 1, "b" := 2, "c" := 3]

  datatype Kandidat = Kandidat(
    bereich: Option<string>,
    ausbildungsstatus: Option<string>,
    beruf: Option<string>,
    aufgaben: seq<string>,
    erfahrung: Option<string>,
    prioritaeten: seq<string>,
    montage: Option<string>,
    fuehrerschein: Option<string>,
    deutsch: Option<string>,
    start: Option<string>)

  datatype Anforderung = Anforderung(
    bereiche: seq<string>,
    berufe: seq<string>,
    ausbildungMin: Option<string>,
    aufgaben: seq<string>,
    aufgabenMin: int,
    erfahrungMin: Option<string>,
    erfahrungMax: Option<string>,
    montageMin: Option<string>,
    fuehrerscheinMin: Option<string>,
    deutschMin: Option<string>,
    gebotenes: seq<string>,
    startBis: Option<string>,
    gewichte: Option<map<Key, real>>)

  /** Where the job lies relative to the worker's locations; absent when nothing is known. */
  datatype Lage = Lage(km: real, radiusKm: real, ort: string, imRadius: bool)

  /** Unknown values have no rank. */
  function Rang(skala: map<string, nat>, v: Option<string>): Option<nat> {
    if v.Some? && v.value in skala then Some(skala[v.value]) else None
  }

  /** Neither missing nor empty. */
  predicate Given(v: Option<string>) { v.Some? && v.value != "" }

  /** How many entries of `xs` occur in `ys`. */
  function CountIn(xs: seq<string>, ys: seq<string>): nat {
    if xs == [] then 0 else (if xs[0] in ys then 1 else 0) + CountIn(xs[1..], ys)
  }

  // ── Stage 1: knockouts ──────────────────────────────────────────────────────

  datatype Grund =
    ENTFERNUNG | ANDERER_BEREICH | AUSBILDUNG | ZU_WENIG_AUFGABEN | MONTAGE | KEIN_FUEHRERSCHEIN | DEUTSCH

  /** Both ranks are known and the actual one is lower. */
  predicate Below(skala: map<string, nat>, ist: Option<string>, soll: Option<string>) {
    Rang(skala, soll).Some? && Rang(skala, ist).Some? && Rang(skala, ist).value < Rang(skala, soll).value
  }

  predicate Fails(kat: Katalog, anf: Anforderung, k: Kandidat, lage: Option<Lage>, g: Grund) {
    match g
    case ENTFERNUNG => lage.Some? && !lage.value.imRadius
    case ANDERER_BEREICH => anf.bereiche != [] && Given(k.bereich) && k.bereich.value !in anf.bereiche
    case AUSBILDUNG => Below(kat.ausbildung, k.ausbildungsstatus, anf.ausbildungMin)
    case ZU_WENIG_AUFGABEN =>
      && anf.aufgaben != [] && anf.aufgabenMin > 0
      && CountIn(anf.aufgaben, k.aufgaben) < Min(anf.aufgabenMin, |anf.aufgaben|)
    case MONTAGE => Below(kat.montage, k.montage, anf.montageMin)
    case KEIN_FUEHRERSCHEIN =>
      && Rang(kat.fuehrerschein, anf.fuehrerscheinMin).Some?
      && Rang(kat.fuehrerschein, anf.fuehrerscheinMin).value > 0
      && Rang(kat.fuehrerschein, k.fuehrerschein) == Some(0)
    case DEUTSCH => Below(kat.deutsch, k.deutsch, anf.deutschMin)
  }

  ghost predicate NoKnockout(kat: Katalog, anf: Anforderung, k: Kandidat, lage: Option<Lage>) {
    forall g :: !Fails(kat, anf, k, lage, g)
  }

  function Nr(g: Grund): nat {
    match g
    case ENTFERNUNG => 0
    case ANDERER_BEREICH => 1
    case AUSBILDUNG => 2
    case ZU_WENIG_AUFGABEN => 3
    case MONTAGE => 4
    case KEIN_FUEHRERSCHEIN => 5
    case DEUTSCH => 6
  }

  /** `raus` lists, in order, exactly the reasons among the first `n` that apply. */
  ghost predicate Listed(kat: Katalog, anf: Anforderung, k: Kandidat, lage: Option<Lage>, raus: seq<Grund>, n: nat) {
    && (forall g :: g in raus <==> Nr(g) < n && Fails(kat, anf, k, lage, g))
    && (forall i, j | 0 <= i < j < |raus| :: Nr(raus[i]) < Nr(raus[j]))
  }

  method Vermerke(kat: Katalog, anf: Anforderung, k: Kandidat, lage: Option<Lage>, bisher: seq<Grund>,
          g: Grund, trifftZu: bool)
    returns (raus: seq<Grund>)
    requires Listed(kat, anf, k, lage, bisher, Nr(g)) && trifftZu == Fails(kat, anf, k, lage, g)
    ensures Listed(kat, anf, k, lage, raus, Nr(g) + 1)
  {
    raus := if trifftZu then bisher + [g] else bisher;
    forall i | 0 <= i < |bisher| ensures Nr(bisher[i]) < Nr(g) {
      assert bisher[i] in bisher;
    }
    assert forall h :: Nr(h) == Nr(g) ==> h == g;
  }

  /** Radius, trade, training and tasks. */
  method PruefeEignung(kat: Katalog, anf: Anforderung, k: Kandidat, lage: Option<Lage>) returns (raus: seq<Grund>)
    ensures Listed(kat, anf, k, lage, raus, 4)
  {
    raus := Vermerke(kat, anf, k, lage, [], ENTFERNUNG, lage.Some? && !lage.value.imRadius);
    raus := Vermerke(kat, anf, k, lage, raus, ANDERER_BEREICH,
                     |anf.bereiche| > 0 && Given(k.bereich) && k.bereich.value !in anf.bereiche);
    var statusIst, statusSoll := Rang(kat.ausbildung, k.ausbildungsstatus), Rang(kat.ausbildung, anf.ausbildungMin);
    raus := Vermerke(kat, anf, k, lage, raus, AUSBILDUNG,
                     statusSoll.Some? && statusIst.Some? && statusIst.value < statusSoll.value);
    var treffer := CountIn(anf.aufgaben, k.aufgaben);
    var noetig := Min(anf.aufgabenMin, |anf.aufgaben|);
    raus := Vermerke(kat, anf, k, lage, raus, ZU_WENIG_AUFGABEN,
                     |anf.aufgaben| > 0 && anf.aufgabenMin > 0 && treffer < noetig);
  }

  lemma AllListed(kat: Katalog, anf: Anforderung, k: Kandidat, lage: Option<Lage>, raus: seq<Grund>)
    requires Listed(kat, anf, k, lage, raus, 7)
    ensures (forall g :: g in raus <==> Fails(kat, anf, k, lage, g)) && Distinct(raus)
  {
  }

  /** Travel, licence and German. */
  method PruefeWeiteres(kat: Katalog, anf: Anforderung, k: Kandidat, lage: Option<Lage>, bisher: seq<Grund>)
    returns (raus: seq<Grund>)
    requires Listed(kat, anf, k, lage, bisher, 4)
    ensures Listed(kat, anf, k, lage, raus, 7)
  {
    var montageIst, montageSoll := Rang(kat.montage, k.montage), Rang(kat.montage, anf.montageMin);
    raus := Vermerke(kat, anf, k, lage, bisher, MONTAGE,
                     montageSoll.Some? && montageIst.Some? && montageIst.value < montageSoll.value);
    var fsIst, fsSoll := Rang(kat.fuehrerschein, k.fuehrerschein), Rang(kat.fuehrerschein, anf.fuehrerscheinMin);
    raus := Vermerke(kat, anf, k, lage, raus, KEIN_FUEHRERSCHEIN,
                     fsSoll.Some? && fsSoll.value > 0 && fsIst == Some(0));
    var deIst, deSoll := Rang(kat.deutsch, k.deutsch), Rang(kat.deutsch, anf.deutschMin);
    raus := Vermerke(kat, anf, k, lage, raus, DEUTSCH,
                     deSoll.Some? && deIst.Some? && deIst.value < deSoll.value);
  }

  /** Reports every reason that applies, each once. */
  method Ausschlusskriterien(kat: Katalog, anf: Anforderung, k: Kandidat, lage: Option<Lage>) returns (raus: seq<Grund>)
    ensures Listed(kat, anf, k, lage, raus, 7)
    ensures forall g :: g in raus <==> Fails(kat, anf, k, lage, g)
    ensures Distinct(raus)
  {
    raus := PruefeEignung(kat, anf, k, lage);
    raus := PruefeWeiteres(kat, anf, k, lage, raus);
    AllListed(kat, anf, k, lage, raus);
  }

  // ── Stage 2: criteria ───────────────────────────────────────────────────────

  function Gewicht(anf: Anforderung, key: Key): real {
    if anf.gewichte.Some? && key in anf.gewichte.value then anf.gewichte.value[key] else StandardWeight(key)
  }

  /** Both sides have said something that can be compared. */
  predicate Applies(kat: Katalog, anf: Anforderung, k: Kandidat, key: Key) {
    match key
    case AUFGABEN => anf.aufgaben != [] && k.aufgaben != []
    case ERFAHRUNG => Rang(kat.erfahrung, k.erfahrung).Some? && (anf.erfahrungMin.Some? || anf.erfahrungMax.Some?)
    case BERUF => anf.berufe != [] && Given(k.beruf)
    case PRIORITAETEN => k.prioritaeten != [] && anf.gebotenes != []
    case FUEHRERSCHEIN =>
      && Rang(kat.fuehrerschein, anf.fuehrerscheinMin).Some?
      && Rang(kat.fuehrerschein, anf.fuehrerscheinMin).value > 0
      && Rang(kat.fuehrerschein, k.fuehrerschein).Some?
    case START => Rang(kat.start, anf.startBis).Some? && Rang(kat.start, k.start).Some?
  }

  predicate Counted(kat: Katalog, anf: Anforderung, k: Kandidat, key: Key) {
    Applies(kat, anf, k, key) && Gewicht(anf, key) > 0.0
  }

  /** Too little experience costs half per step, too much a tenth per step and at most 30 %. */
  function BewerteErfahrung(ist: nat, min: Option<nat>, max: Option<nat>): real {
    if min.Some? && ist < min.value then MaxReal(0.0, 1.0 - (min.value - ist) as real * 0.5)
    else if max.Some? && ist > max.value then MaxReal(0.7, 1.0 - (ist - max.value) as real * 0.1)
    else 1.0
  }

  function BewerteBeruf(kat: Katalog, anf: Anforderung, k: Kandidat): real
    requires k.beruf.Some?
  {
    if k.beruf.value in anf.berufe then 1.0
    else if Given(k.bereich) && k.bereich.value in kat.berufe
            && exists b | b in kat.berufe[k.bereich.value] :: b in anf.berufe then 0.6
    else 0.0
  }

  function BewerteFuehrerschein(ist: nat, soll: nat, schein: Option<string>): real {
    if ist >= soll then 1.0 else if schein == Some("fahrschule") then 0.5 else 0.3
  }

  /** Every month of delay costs a tenth. */
  function BewerteStart(ist: nat, soll: nat): real {
    if ist <= soll then 1.0 else MaxReal(0.0, 1.0 - (ist - soll) as real * 0.1)
  }

  function Erfuellung(kat: Katalog, anf: Anforderung, k: Kandidat, key: Key): real
    requires Applies(kat, anf, k, key)
  {
    match key
    case AUFGABEN => CountIn(anf.aufgaben, k.aufgaben) as real / |anf.aufgaben| as real
    case ERFAHRUNG =>
      BewerteErfahrung(Rang(kat.erfahrung, k.erfahrung).value,
                       Rang(kat.erfahrung, anf.erfahrungMin), Rang(kat.erfahrung, anf.erfahrungMax))
    case BERUF => BewerteBeruf(kat, anf, k)
    case PRIORITAETEN => CountIn(k.prioritaeten, anf.gebotenes) as real / |k.prioritaeten| as real
    case FUEHRERSCHEIN =>
      BewerteFuehrerschein(Rang(kat.fuehrerschein, k.fuehrerschein).value,
                           Rang(kat.fuehrerschein, anf.fuehrerscheinMin).value, k.fuehrerschein)
    case START => BewerteStart(Rang(kat.start, k.start).value, Rang(kat.start, anf.startBis).value)
  }

  function Clamp01(x: real): real { MinReal(1.0, MaxReal(0.0, x)) }

  /** The terms of the weighted mean: one for each criterion that counts. */
  function Terms(kat: Katalog, anf: Anforderung, k: Kandidat, keys: seq<Key>): seq<Term> {
    if keys == [] then []
    else if Counted(kat, anf, k, keys[0])
    then [Term(Gewicht(anf, keys[0]), Clamp01(Erfuellung(kat, anf, k, keys[0])))] + Terms(kat, anf, k, keys[1..])
    else Terms(kat, anf, k, keys[1..])
  }

  function Base(kat: Katalog, anf: Anforderung, k: Kandidat): int { Shown(Terms(kat, anf, k, KEYS)) }

  datatype Zeile = Zeile(key: Key, weight: real, fulfilment: real, penalty: real, maxPenalty: real, skipped: bool)

  datatype Breakdown = Breakdown(
    passed: bool,
    knockouts: seq<Grund>,
    criteria: seq<Zeile>,
    totalPenalty: real,
    totalMaxPenalty: real,
    baseScore: int,
    score: int)

  /** What the row of one criterion says. */
  ghost predicate RowOk(kat: Katalog, anf: Anforderung, k: Kandidat, z: Zeile) {
    && z.weight == Gewicht(anf, z.key)
    && z.skipped == !Counted(kat, anf, k, z.key)
    && (if z.skipped then z.fulfilment == z.penalty == z.maxPenalty == 0.0
        else
          var t := Term(z.weight, Clamp01(Erfuellung(kat, anf, k, z.key)));
          z.fulfilment == Round2(t.fulfilment) && z.penalty == Round2(Penalty(t)) && z.maxPenalty == z.weight)
  }

  method Pruefe(kat: Katalog, anf: Anforderung, k: Kandidat, key: Key) returns (z: Zeile)
    ensures z.key == key && RowOk(kat, anf, k, z)
  {
    var w := Gewicht(anf, key);
    if !Applies(kat, anf, k, key) || w <= 0.0 {
      return Zeile(key, w, 0.0, 0.0, 0.0, true);
    }
    var f := Clamp01(Erfuellung(kat, anf, k, key));
    var t := Term(w, f);
    return Zeile(key, w, Round2(f), Round2(Penalty(t)), w, false);
  }

  /**
   * The whole verdict: one row per criterion in order, the totals of the rows
   * that count, and the score, which is zero exactly by a knockout or by the points.
   */
  method Bewerte(kat: Katalog, anf: Anforderung, k: Kandidat, lage: Option<Lage>) returns (b: Breakdown)
    ensures forall g :: g in b.knockouts <==> Fails(kat, anf, k, lage, g)
    ensures Distinct(b.knockouts)
    ensures b.passed <==> b.knockouts == []
    ensures b.passed <==> NoKnockout(kat, anf, k, lage)
    ensures |b.criteria| == |KEYS|
    ensures forall i | 0 <= i < |KEYS| :: b.criteria[i].key == KEYS[i] && RowOk(kat, anf, k, b.criteria[i])
    ensures b.totalPenalty == Round2(SumRounded(Terms(kat, anf, k, KEYS)))
    ensures b.totalMaxPenalty == SumWeight(Terms(kat, anf, k, KEYS))
    ensures b.score == b.baseScore == if b.passed then Base(kat, anf, k) else 0
  {
    var knockouts := Ausschlusskriterien(kat, anf, k, lage);
    var zeilen: seq<Zeile> := [];
    var penalty, maxPenalty := 0.0, 0.0;
    for i := 0 to |KEYS|
      invariant |zeilen| == i
      invariant forall j | 0 <= j < i :: zeilen[j].key == KEYS[j] && RowOk(kat, anf, k, zeilen[j])
      invariant penalty + SumRounded(Terms(kat, anf, k, KEYS[i..])) == SumRounded(Terms(kat, anf, k, KEYS))
      invariant maxPenalty + SumWeight(Terms(kat, anf, k, KEYS[i..])) == SumWeight(Terms(kat, anf, k, KEYS))
    {
      var z := Pruefe(kat, anf, k, KEYS[i]);
      zeilen := zeilen + [z];
      FirstTerm(kat, anf, k, KEYS[i..]);
      if !z.skipped {
        penalty, maxPenalty := penalty + z.penalty, maxPenalty + z.maxPenalty;
      }
    }
    var totalPenalty := Round2(penalty);
    var baseScore := if maxPenalty > 0.0 then Clamp100(Round(100.0 * (1.0 - totalPenalty / maxPenalty))) else 100;
    var passed := |knockouts| == 0;
    assert !passed ==> knockouts[0] in knockouts;
    b := Breakdown(passed, knockouts, zeilen, totalPenalty, maxPenalty,
                   if passed then baseScore else 0, if passed then baseScore else 0);
  }

  lemma FirstTerm(kat: Katalog, anf: Anforderung, k: Kandidat, keys: seq<Key>)
    requires keys != []
    ensures var ts, rest := Terms(kat, anf, k, keys), Terms(kat, anf, k, keys[1..]);
            if Counted(kat, anf, k, keys[0]) then
              var t := Term(Gewicht(anf, keys[0]), Clamp01(Erfuellung(kat, anf, k, keys[0])));
              SumRounded(ts) == Round2(Penalty(t)) + SumRounded(rest) && SumWeight(ts) == t.weight + SumWeight(rest)
            else ts == rest
  {
  }
}
