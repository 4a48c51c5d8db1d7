// From the employer's form to a stored posting: every accepted requirement
// profile can be met in full, and its weights are usable.
module Posting {
  import opened Common
  import opened ScoreArithmetic
  import opened Matching
  import opened MatchingLaws

  // ── Weights from unchecked JSON ─────────────────────────────────────────────

  function KeyName(key: Key): string {
    match key
    case AUFGABEN => "aufgaben"
    case ERFAHRUNG => "erfahrung"
    case BERUF => "beruf"
    case PRIORITAETEN => "prioritaeten"
    case FUEHRERSCHEIN => "fuehrerschein"
    case START => "start"
  }

  predicate Usable(roh: Json, key: Key) {
    roh.Obj? && KeyName(key) in roh.fields && roh.fields[KeyName(key)].Num?
  }

  function Cleaned(n: real): real { Min(5, Max(0, Round(n))) as real }

  /** `w` is the whole number from 0 to 5 nearest to `n`, the larger one of two. */
  ghost predicate Nearest(n: real, w: real) {
    IsWeight(w) && forall v | IsWeight(v) && v != w :: if v < w then w - n <= n - v else n - w < v - n
  }

  lemma CleanedIsNearest(n: real)
    ensures Nearest(n, Cleaned(n))
  {
    RoundIsNearest(n);
  }

  /** The weight stored under a name, brought into range, or the standard one if none is. */
  ghost predicate NearestWeight(roh: Json, name: string, standard: real, w: real) {
    if roh.Obj? && name in roh.fields && roh.fields[name].Num? then Nearest(roh.fields[name].n, w) else w == standard
  }

  /** Exactly the usable entries among `keys`, cleaned. */
  ghost predicate Collected(roh: Json, keys: seq<Key>, raus: map<Key, real>) {
    && (forall key :: key in raus <==> key in keys && Usable(roh, key))
    && (forall key | key in raus :: raus[key] == Cleaned(roh.fields[KeyName(key)].n))
  }

  /** Keeps exactly the usable entries, as whole numbers from 0 to 5; nothing at all if there are none. */
  method PruefeGewichte(roh: Json) returns (gewichte: Option<map<Key, real>>)
    ensures gewichte.None? <==> forall key :: !Usable(roh, key)
    ensures gewichte.Some? ==>
              forall key :: (key in gewichte.value <==> Usable(roh, key))
                            && (key in gewichte.value ==> gewichte.value[key] == Cleaned(roh.fields[KeyName(key)].n)
                                                          && IsWeight(gewichte.value[key]))
  {
    if !roh.Obj? {
      return None;
    }
    var keys := KEYS;
    forall key ensures key in keys {
      EveryKeyListed(key);
    }
    var raus := Sammle(roh, keys);
    if |raus| > 0 {
      var some :| some in raus;
      return Some(raus);
    }
    return None;
  }

  method Sammle(roh: Json, keys: seq<Key>) returns (raus: map<Key, real>)
    requires roh.Obj?
    ensures Collected(roh, keys, raus)
  {
    raus := map[];
    for i := 0 to |keys|
      invariant Collected(roh, keys[..i], raus)
    {
      var key := keys[i];
      assert keys[..i + 1] == keys[..i] + [key];
      if KeyName(key) in roh.fields && roh.fields[KeyName(key)].Num? {
        raus := raus[key := Cleaned(roh.fields[KeyName(key)].n)];
      }
    }
    assert keys[..|keys|] == keys;
  }

  /** The profile a posting is scored with: as stored, but with clean weights, whatever JSON was stored for them. */
  method AnforderungVon(stored: Anforderung, gewichte: Json) returns (anf: Anforderung)
    ensures anf == stored.(gewichte := anf.gewichte) && Normalised(anf)
    ensures NearestWeight(gewichte, "aufgaben", 5.0, Gewicht(anf, AUFGABEN))
    ensures NearestWeight(gewichte, "erfahrung", 4.0, Gewicht(anf, ERFAHRUNG))
    ensures NearestWeight(gewichte, "beruf", 3.0, Gewicht(anf, BERUF))
    ensures NearestWeight(gewichte, "prioritaeten", 2.0, Gewicht(anf, PRIORITAETEN))
    ensures NearestWeight(gewichte, "fuehrerschein", 2.0, Gewicht(anf, FUEHRERSCHEIN))
    ensures NearestWeight(gewichte, "start", 1.0, Gewicht(anf, START))
  {
    var clean := PruefeGewichte(gewichte);
    anf := stored.(gewichte := clean);
    CleanWeightsAreNormalised(anf);
    forall key ensures NearestWeight(gewichte, KeyName(key), StandardWeight(key), Gewicht(anf, key)) {
      if Usable(gewichte, key) {
        CleanedIsNearest(gewichte.fields[KeyName(key)].n);
      }
    }
  }

  // ── The form ────────────────────────────────────────────────────────────────

  /** The requirement part of the form; absent fields mean the employer does not care. */
  datatype Form = Form(
    bereiche: Option<seq<string>>,
    berufe: Option<seq<string>>,
    ausbildungMin: Option<string>,
    aufgaben: Option<seq<string>>,
    aufgabenMin: Option<int>,
    erfahrungMin: Option<string>,
    erfahrungMax: Option<string>,
    montageMin: Option<string>,
    fuehrerscheinMin: Option<string>,
    deutschMin: Option<string>,
    gebotenes: Option<seq<string>>,
    startBis: Option<string>)

  /** The values the form may use for lists; scales come from the catalogue. */
  datatype Listen = Listen(bereiche: set<string>, berufe: set<string>, aufgaben: set<string>, prioritaeten: set<string>)

  /** `[...new Set(xs)]`. */
  function Dedup(xs: seq<string>): seq<string> {
    if xs == [] then []
    else
      var front := Dedup(xs[..|xs| - 1]);
      if xs[|xs| - 1] in front then front else front + [xs[|xs| - 1]]
  }

  lemma {:induction false} DedupKeepsMembers(xs: seq<string>)
    ensures (forall x :: x in Dedup(xs) <==> x in xs) && Distinct(Dedup(xs)) && |Dedup(xs)| <= |xs|
  {
    if xs != [] {
      DedupKeepsMembers(xs[..|xs| - 1]);
      assert xs == xs[..|xs| - 1] + [xs[|xs| - 1]];
    }
  }

  /** Later repetitions change nothing: every value stays where it first stood. */
  lemma {:induction false} DedupKeepsFirst(xs: seq<string>, more: seq<string>)
    ensures Dedup(xs) <= Dedup(xs + more)
  {
    if more == [] {
      assert xs + more == xs;
    } else {
      var n := |more| - 1;
      DedupKeepsFirst(xs, more[..n]);
      assert (xs + more)[..|xs| + n] == xs + more[..n];
    }
  }

  function Liste(werte: Option<seq<string>>): seq<string> {
    if werte.Some? then Dedup(werte.value) else []
  }

  predicate ListeOk(werte: Option<seq<string>>, erlaubt: set<string>) {
    forall v | v in Liste(werte) :: v in erlaubt
  }

  /** An empty choice counts as none. */
  function Einzeln(wert: Option<string>): Option<string> {
    if Given(wert) then wert else None
  }

  predicate EinzelnOk(wert: Option<string>, skala: map<string, nat>) {
    Given(wert) ==> wert.value in skala
  }

  predicate FormOk(kat: Katalog, l: Listen, f: Form) {
    && ListeOk(f.bereiche, l.bereiche) && ListeOk(f.aufgaben, l.aufgaben)
    && EinzelnOk(f.erfahrungMin, kat.erfahrung) && EinzelnOk(f.erfahrungMax, kat.erfahrung)
    && ListeOk(f.berufe, l.berufe) && EinzelnOk(f.ausbildungMin, kat.ausbildung)
    && EinzelnOk(f.montageMin, kat.montage) && EinzelnOk(f.fuehrerscheinMin, kat.fuehrerschein)
    && EinzelnOk(f.deutschMin, kat.deutsch) && ListeOk(f.gebotenes, l.prioritaeten)
    && EinzelnOk(f.startBis, kat.start)
  }

  /** The stored profile, or None where the form is refused for a value the catalogue does not know. */
  function AnforderungsDaten(kat: Katalog, l: Listen, f: Form, gewichte: Option<map<Key, real>>): Option<Anforderung> {
    if !FormOk(kat, l, f) then None
    else
      var aufgaben := Liste(f.aufgaben);
      var min, max := Einzeln(f.erfahrungMin), Einzeln(f.erfahrungMax);
      var von, bis := Rang(kat.erfahrung, min), Rang(kat.erfahrung, max);
      var tauschen := von.Some? && bis.Some? && von.value > bis.value;
      Some(Anforderung(
        Liste(f.bereiche), Liste(f.berufe), Einzeln(f.ausbildungMin), aufgaben,
        Max(0, Min(if f.aufgabenMin.Some? then f.aufgabenMin.value else 0, |aufgaben|)),
        if tauschen then max else min, if tauschen then min else max,
        Einzeln(f.montageMin), Einzeln(f.fuehrerscheinMin), Einzeln(f.deutschMin),
        Liste(f.gebotenes), Einzeln(f.startBis), gewichte))
  }

  /** Accepted exactly when every value given, wherever it stands, is one the catalogue knows. */
  lemma AcceptedIff(kat: Katalog, l: Listen, f: Form, gewichte: Option<map<Key, real>>)
    ensures AnforderungsDaten(kat, l, f, gewichte).Some? <==>
            && Within(f.bereiche, l.bereiche) && Within(f.berufe, l.berufe)
            && Within(f.aufgaben, l.aufgaben) && Within(f.gebotenes, l.prioritaeten)
            && KnownTo(f.ausbildungMin, kat.ausbildung) && KnownTo(f.montageMin, kat.montage)
            && KnownTo(f.erfahrungMin, kat.erfahrung) && KnownTo(f.erfahrungMax, kat.erfahrung)
            && KnownTo(f.fuehrerscheinMin, kat.fuehrerschein) && KnownTo(f.deutschMin, kat.deutsch)
            && KnownTo(f.startBis, kat.start)
  {
    ListIsItsMembers(f.bereiche);
    ListIsItsMembers(f.berufe);
    ListIsItsMembers(f.aufgaben);
    ListIsItsMembers(f.gebotenes);
  }

  ghost predicate Within(werte: Option<seq<string>>, erlaubt: set<string>) {
    werte.Some? ==> forall v | v in werte.value :: v in erlaubt
  }

  /** Not chosen, or left empty, or chosen from the scale. */
  predicate KnownTo(wert: Option<string>, skala: map<string, nat>) {
    wert.Some? ==> wert.value == "" || wert.value in skala
  }

  lemma ListIsItsMembers(werte: Option<seq<string>>)
    ensures forall x :: x in Liste(werte) <==> werte.Some? && x in werte.value
    ensures Distinct(Liste(werte))
  {
    if werte.Some? {
      DedupKeepsMembers(werte.value);
    }
  }

  // ── What is stored ──────────────────────────────────────────────────────────

  predicate SpanOrdered(kat: Katalog, anf: Anforderung) {
    var von, bis := Rang(kat.erfahrung, anf.erfahrungMin), Rang(kat.erfahrung, anf.erfahrungMax);
    von.Some? && bis.Some? ==> von.value <= bis.value
  }

  /** What the form guarantees about a stored profile. */
  ghost predicate Stored(kat: Katalog, l: Listen, anf: Anforderung) {
    && (forall v | v in anf.bereiche :: v in l.bereiche) && Distinct(anf.bereiche)
    && (forall v | v in anf.berufe :: v in l.berufe) && Distinct(anf.berufe)
    && (forall v | v in anf.aufgaben :: v in l.aufgaben) && Distinct(anf.aufgaben)
    && (forall v | v in anf.gebotenes :: v in l.prioritaeten) && Distinct(anf.gebotenes)
    && 0 <= anf.aufgabenMin <= |anf.aufgaben|
    && OnScale(anf.ausbildungMin, kat.ausbildung) && OnScale(anf.montageMin, kat.montage)
    && OnScale(anf.fuehrerscheinMin, kat.fuehrerschein) && OnScale(anf.deutschMin, kat.deutsch)
    && OnScale(anf.startBis, kat.start)
    && OnScale(anf.erfahrungMin, kat.erfahrung) && OnScale(anf.erfahrungMax, kat.erfahrung)
    && SpanOrdered(kat, anf)
  }

  predicate OnScale(v: Option<string>, skala: map<string, nat>) { v.Some? ==> v.value != "" && v.value in skala }

  /** The stored list has exactly the entries of the form's. */
  ghost predicate AsksFor(form: Option<seq<string>>, stored: seq<string>) {
    forall v :: v in stored <==> form.Some? && v in form.value
  }

  /** The stored choice is the form's, where it makes one. */
  ghost predicate ChosenAs(form: Option<string>, stored: Option<string>) {
    forall v :: stored == Some(v) <==> form == Some(v) && v != ""
  }

  /** The number asked for, or none, brought into range. */
  ghost predicate NearestTo(form: Option<int>, stored: int, most: nat) {
    var n := if form.Some? then form.value else 0;
    0 <= stored <= most && (stored < n ==> stored == most) && (stored > n ==> stored == 0)
  }

  /** Both ends of the span are given, the lower one as the upper. */
  predicate Reversed(kat: Katalog, f: Form) {
    && Given(f.erfahrungMin) && f.erfahrungMin.value in kat.erfahrung
    && Given(f.erfahrungMax) && f.erfahrungMax.value in kat.erfahrung
    && kat.erfahrung[f.erfahrungMin.value] > kat.erfahrung[f.erfahrungMax.value]
  }

  lemma ListsStored(kat: Katalog, l: Listen, f: Form, gewichte: Option<map<Key, real>>)
    requires AnforderungsDaten(kat, l, f, gewichte).Some?
    ensures var anf := AnforderungsDaten(kat, l, f, gewichte).value;
            && AsksFor(f.bereiche, anf.bereiche) && Distinct(anf.bereiche)
            && AsksFor(f.berufe, anf.berufe) && Distinct(anf.berufe)
            && AsksFor(f.aufgaben, anf.aufgaben) && Distinct(anf.aufgaben)
            && AsksFor(f.gebotenes, anf.gebotenes) && Distinct(anf.gebotenes)
  {
    ListIsItsMembers(f.bereiche);
    ListIsItsMembers(f.berufe);
    ListIsItsMembers(f.aufgaben);
    ListIsItsMembers(f.gebotenes);
  }

  lemma ChoicesStored(kat: Katalog, l: Listen, f: Form, gewichte: Option<map<Key, real>>)
    requires AnforderungsDaten(kat, l, f, gewichte).Some?
    ensures var anf := AnforderungsDaten(kat, l, f, gewichte).value;
            && ChosenAs(f.ausbildungMin, anf.ausbildungMin) && ChosenAs(f.montageMin, anf.montageMin)
            && ChosenAs(f.fuehrerscheinMin, anf.fuehrerscheinMin) && ChosenAs(f.deutschMin, anf.deutschMin)
            && ChosenAs(f.startBis, anf.startBis) && anf.gewichte == gewichte
            && NearestTo(f.aufgabenMin, anf.aufgabenMin, |anf.aufgaben|)
  {
  }

  /** The ends of the span change places exactly if both are given and the wrong way round. */
  ghost predicate SpanAs(kat: Katalog, f: Form, min: Option<string>, max: Option<string>) {
    if Reversed(kat, f) then ChosenAs(f.erfahrungMax, min) && ChosenAs(f.erfahrungMin, max)
    else ChosenAs(f.erfahrungMin, min) && ChosenAs(f.erfahrungMax, max)
  }

  lemma SpanStored(kat: Katalog, l: Listen, f: Form, gewichte: Option<map<Key, real>>)
    requires AnforderungsDaten(kat, l, f, gewichte).Some?
    ensures var anf := AnforderungsDaten(kat, l, f, gewichte).value;
            SpanAs(kat, f, anf.erfahrungMin, anf.erfahrungMax) && SpanOrdered(kat, anf)
  {
  }

  lemma IsStored(kat: Katalog, l: Listen, f: Form, gewichte: Option<map<Key, real>>)
    requires AnforderungsDaten(kat, l, f, gewichte).Some?
    ensures Stored(kat, l, AnforderungsDaten(kat, l, f, gewichte).value)
  {
    ListsStored(kat, l, f, gewichte);
  }

  /** A stored profile is well formed, and asks for the values of the form and no others. */
  lemma StoredProfile(kat: Katalog, l: Listen, f: Form, gewichte: Option<map<Key, real>>)
    requires AnforderungsDaten(kat, l, f, gewichte).Some?
    ensures var anf := AnforderungsDaten(kat, l, f, gewichte).value;
            && Stored(kat, l, anf)
            && AsksFor(f.bereiche, anf.bereiche) && AsksFor(f.berufe, anf.berufe)
            && AsksFor(f.aufgaben, anf.aufgaben) && AsksFor(f.gebotenes, anf.gebotenes)
            && ChosenAs(f.ausbildungMin, anf.ausbildungMin) && ChosenAs(f.montageMin, anf.montageMin)
            && ChosenAs(f.fuehrerscheinMin, anf.fuehrerscheinMin) && ChosenAs(f.deutschMin, anf.deutschMin)
            && ChosenAs(f.startBis, anf.startBis) && anf.gewichte == gewichte
            && NearestTo(f.aufgabenMin, anf.aufgabenMin, |anf.aufgaben|)
            && SpanAs(kat, f, anf.erfahrungMin, anf.erfahrungMax)
  {
    IsStored(kat, l, f, gewichte);
    ListsStored(kat, l, f, gewichte);
    ChoicesStored(kat, l, f, gewichte);
    SpanStored(kat, l, f, gewichte);
  }

  /** Some amount of experience meets a span in full exactly when the span is not the wrong way round. */
  lemma SpanMeetableIff(min: Option<nat>, max: Option<nat>)
    ensures (exists ist: nat :: BewerteErfahrung(ist, min, max) == 1.0)
            <==> !(min.Some? && max.Some? && min.value > max.value)
  {
    if !(min.Some? && max.Some? && min.value > max.value) {
      var ist: nat := if min.Some? then min.value else 0;
      assert BewerteErfahrung(ist, min, max) == 1.0;
    }
  }

  /** Some experience lies in the span of two ranks, or on the right side of the one that is given. */
  predicate InSpan(ist: nat, von: Option<nat>, bis: Option<nat>) {
    if von.Some? && bis.Some? then Min(von.value, bis.value) <= ist <= Max(von.value, bis.value)
    else (von.Some? ==> von.value <= ist) && (bis.Some? ==> ist <= bis.value)
  }

  function GivenRank(skala: map<string, nat>, wert: Option<string>): Option<nat> {
    if wert.Some? && wert.value != "" && wert.value in skala then Some(skala[wert.value]) else None
  }

  /** The experience that meets the stored span in full is what the form asks for, whichever way round it was given. */
  lemma SpanMeansForm(kat: Katalog, l: Listen, f: Form, gewichte: Option<map<Key, real>>, ist: nat)
    requires AnforderungsDaten(kat, l, f, gewichte).Some?
    ensures var anf := AnforderungsDaten(kat, l, f, gewichte).value;
            BewerteErfahrung(ist, Rang(kat.erfahrung, anf.erfahrungMin), Rang(kat.erfahrung, anf.erfahrungMax)) == 1.0
            <==> InSpan(ist, GivenRank(kat.erfahrung, f.erfahrungMin), GivenRank(kat.erfahrung, f.erfahrungMax))
  {
  }

  // ── Every stored posting can be met ─────────────────────────────────────────

  /** The lists are those of the catalogue, and no entry is nameless. */
  ghost predicate Catalogued(kat: Katalog, l: Listen) {
    && l.bereiche == kat.berufe.Keys
    && (forall o :: o in l.berufe <==> Taught(kat, o))
    && (forall b | b in kat.berufe :: kat.berufe[b] != [])
    && "" !in l.bereiche && "" !in l.berufe
  }

  ghost predicate Taught(kat: Katalog, beruf: string) {
    exists b | b in kat.berufe :: beruf in kat.berufe[b]
  }

  /** A candidate who has answered everything, to fill in what the posting leaves open. */
  ghost predicate Answered(kat: Katalog, l: Listen, k: Kandidat) {
    && Given(k.bereich) && k.bereich.value in l.bereiche
    && Given(k.beruf) && k.beruf.value in l.berufe
    && k.aufgaben != [] && (forall a | a in k.aufgaben :: a in l.aufgaben)
    && k.prioritaeten != [] && (forall p | p in k.prioritaeten :: p in l.prioritaeten)
    && Rang(kat.ausbildung, k.ausbildungsstatus).Some? && Rang(kat.erfahrung, k.erfahrung).Some?
    && Rang(kat.montage, k.montage).Some? && Rang(kat.fuehrerschein, k.fuehrerschein).Some?
    && Rang(kat.deutsch, k.deutsch).Some? && Rang(kat.start, k.start).Some?
  }

  function Pick(list: seq<string>, otherwise: Option<string>): Option<string> {
    if list != [] then Some(list[0]) else otherwise
  }

  function Prefer(v: Option<string>, otherwise: Option<string>): Option<string> {
    if v.Some? then v else otherwise
  }

  /** The candidate a posting describes; `sonst` answers what it leaves open. */
  function Wunschkandidat(anf: Anforderung, sonst: Kandidat): Kandidat {
    Kandidat(
      Pick(anf.bereiche, sonst.bereich),
      Prefer(anf.ausbildungMin, sonst.ausbildungsstatus),
      Pick(anf.berufe, sonst.beruf),
      if anf.aufgaben != [] then anf.aufgaben else sonst.aufgaben,
      Prefer(anf.erfahrungMin, Prefer(anf.erfahrungMax, sonst.erfahrung)),
      if anf.gebotenes != [] then [anf.gebotenes[0]] else sonst.prioritaeten,
      Prefer(anf.montageMin, sonst.montage),
      Prefer(anf.fuehrerscheinMin, sonst.fuehrerschein),
      Prefer(anf.deutschMin, sonst.deutsch),
      Prefer(anf.startBis, sonst.start))
  }

  /** What the posting states; a licence of rank zero asks for nothing. */
  predicate States(kat: Katalog, anf: Anforderung, key: Key) {
    match key
    case AUFGABEN => anf.aufgaben != []
    case ERFAHRUNG => anf.erfahrungMin.Some? || anf.erfahrungMax.Some?
    case BERUF => anf.berufe != []
    case PRIORITAETEN => anf.gebotenes != []
    case FUEHRERSCHEIN => anf.fuehrerscheinMin.Some? && Rang(kat.fuehrerschein, anf.fuehrerscheinMin) != Some(0)
    case START => anf.startBis.Some?
  }

  lemma {:induction false} CountInItself(xs: seq<string>, ys: seq<string>)
    requires forall x | x in xs :: x in ys
    ensures CountIn(xs, ys) == |xs|
  {
    if xs != [] {
      CountInItself(xs[1..], ys);
    }
  }

  /** What the posting states is what can be judged, and it is met in full. */
  ghost predicate MeetsKey(kat: Katalog, anf: Anforderung, k: Kandidat, key: Key) {
    && Applies(kat, anf, k, key) == States(kat, anf, key)
    && (Applies(kat, anf, k, key) ==> Erfuellung(kat, anf, k, key) == 1.0)
  }

  /** Scored in full on all that is stated, and on nothing else. */
  ghost predicate FullyMet(kat: Katalog, anf: Anforderung, k: Kandidat) {
    forall key :: MeetsKey(kat, anf, k, key)
  }

  lemma WunschAufgaben(kat: Katalog, l: Listen, anf: Anforderung, sonst: Kandidat)
    requires Answered(kat, l, sonst)
    ensures MeetsKey(kat, anf, Wunschkandidat(anf, sonst), AUFGABEN)
  {
    if anf.aufgaben != [] {
      AllCovered(anf.aufgaben, anf.aufgaben);
    }
  }

  lemma AllCovered(xs: seq<string>, ys: seq<string>)
    requires xs != [] && forall x | x in xs :: x in ys
    ensures CountIn(xs, ys) as real / |xs| as real == 1.0
  {
    CountInItself(xs, ys);
  }

  lemma WunschErfahrung(kat: Katalog, l: Listen, anf: Anforderung, sonst: Kandidat)
    requires Stored(kat, l, anf) && Answered(kat, l, sonst)
    ensures MeetsKey(kat, anf, Wunschkandidat(anf, sonst), ERFAHRUNG)
  {
  }

  lemma WunschBeruf(kat: Katalog, l: Listen, anf: Anforderung, sonst: Kandidat)
    requires Catalogued(kat, l) && Stored(kat, l, anf) && Answered(kat, l, sonst)
    ensures MeetsKey(kat, anf, Wunschkandidat(anf, sonst), BERUF)
  {
    assert anf.berufe != [] ==> anf.berufe[0] in anf.berufe;
  }

  lemma WunschPrioritaeten(kat: Katalog, l: Listen, anf: Anforderung, sonst: Kandidat)
    requires Answered(kat, l, sonst)
    ensures MeetsKey(kat, anf, Wunschkandidat(anf, sonst), PRIORITAETEN)
  {
    if anf.gebotenes != [] {
      AllCovered([anf.gebotenes[0]], anf.gebotenes);
    }
  }

  lemma WunschFuehrerschein(kat: Katalog, l: Listen, anf: Anforderung, sonst: Kandidat)
    requires Stored(kat, l, anf) && Answered(kat, l, sonst)
    ensures MeetsKey(kat, anf, Wunschkandidat(anf, sonst), FUEHRERSCHEIN)
  {
  }

  lemma WunschStart(kat: Katalog, l: Listen, anf: Anforderung, sonst: Kandidat)
    requires Stored(kat, l, anf) && Answered(kat, l, sonst)
    ensures MeetsKey(kat, anf, Wunschkandidat(anf, sonst), START)
  {
  }

  lemma WunschFulfilsKey(kat: Katalog, l: Listen, anf: Anforderung, sonst: Kandidat, key: Key)
    requires Catalogued(kat, l) && Stored(kat, l, anf) && Answered(kat, l, sonst)
    ensures MeetsKey(kat, anf, Wunschkandidat(anf, sonst), key)
  {
    match key
    case AUFGABEN => WunschAufgaben(kat, l, anf, sonst);
    case ERFAHRUNG => WunschErfahrung(kat, l, anf, sonst);
    case BERUF => WunschBeruf(kat, l, anf, sonst);
    case PRIORITAETEN => WunschPrioritaeten(kat, l, anf, sonst);
    case FUEHRERSCHEIN => WunschFuehrerschein(kat, l, anf, sonst);
    case START => WunschStart(kat, l, anf, sonst);
  }

  lemma WunschFulfils(kat: Katalog, l: Listen, anf: Anforderung, sonst: Kandidat)
    requires Catalogued(kat, l) && Stored(kat, l, anf) && Answered(kat, l, sonst)
    ensures FullyMet(kat, anf, Wunschkandidat(anf, sonst))
  {
    forall key {
      WunschFulfilsKey(kat, l, anf, sonst, key);
    }
  }

  lemma WunschIsAnswered(kat: Katalog, l: Listen, anf: Anforderung, sonst: Kandidat)
    requires Catalogued(kat, l) && Stored(kat, l, anf) && Answered(kat, l, sonst)
    ensures Answered(kat, l, Wunschkandidat(anf, sonst))
  {
  }

  lemma WunschPasses(kat: Katalog, l: Listen, anf: Anforderung, sonst: Kandidat, lage: Option<Lage>)
    requires Stored(kat, l, anf) && (lage.Some? ==> lage.value.imRadius)
    ensures NoKnockout(kat, anf, Wunschkandidat(anf, sonst), lage)
  {
    var k := Wunschkandidat(anf, sonst);
    forall g ensures !Fails(kat, anf, k, lage, g) {
      match g
      case ANDERER_BEREICH => assert anf.bereiche != [] ==> anf.bereiche[0] in anf.bereiche;
      case ZU_WENIG_AUFGABEN => CountInItself(anf.aufgaben, anf.aufgaben);
      case _ =>
    }
  }

  lemma {:induction false} TermsAreFull(kat: Katalog, anf: Anforderung, k: Kandidat, keys: seq<Key>)
    requires FullyMet(kat, anf, k)
    ensures forall t | t in Terms(kat, anf, k, keys) :: t.fulfilment == 1.0
  {
    if keys != [] {
      TermsAreFull(kat, anf, k, keys[1..]);
      assert MeetsKey(kat, anf, k, keys[0]);
    }
  }

  /**
   * Whatever form is accepted and whatever the weights: a candidate who has
   * answered everything passes without a knockout, scores exactly 100, and is
   * judged on every criterion the posting states and gives weight to.
   */
  lemma EveryPostingCanBeMet(kat: Katalog, l: Listen, f: Form, gewichte: Option<map<Key, real>>,
          sonst: Kandidat, lage: Option<Lage>)
    requires Catalogued(kat, l) && Answered(kat, l, sonst)
    requires AnforderungsDaten(kat, l, f, gewichte).Some?
    requires lage.Some? ==> lage.value.imRadius
    ensures var anf := AnforderungsDaten(kat, l, f, gewichte).value;
            var k := Wunschkandidat(anf, sonst);
            && Answered(kat, l, k)
            && NoKnockout(kat, anf, k, lage)
            && Base(kat, anf, k) == 100
            && forall key :: Counted(kat, anf, k, key) <==> States(kat, anf, key) && Gewicht(anf, key) > 0.0
  {
    var anf := AnforderungsDaten(kat, l, f, gewichte).value;
    var k := Wunschkandidat(anf, sonst);
    StoredProfile(kat, l, f, gewichte);
    WunschIsAnswered(kat, l, anf, sonst);
    WunschPasses(kat, l, anf, sonst, lage);
    WunschFulfils(kat, l, anf, sonst);
    TermsAreFull(kat, anf, k, KEYS);
    PerfectShows100(Terms(kat, anf, k, KEYS));
  }

  // ── Candidates whose occupation belongs to their trade ──────────────────────

  predicate OwnTrade(kat: Katalog, k: Kandidat) {
    k.bereich.Some? && k.beruf.Some? && k.bereich.value in kat.berufe && k.beruf.value in kat.berufe[k.bereich.value]
  }

  /** The trades and the occupations asked for, where both are, have a pair in common. */
  ghost predicate Coherent(kat: Katalog, anf: Anforderung) {
    anf.bereiche != [] && anf.berufe != [] ==>
      exists b, o :: b in anf.bereiche && b in kat.berufe && o in kat.berufe[b] && o in anf.berufe
  }

  ghost predicate MetFromOwnTrade(kat: Katalog, l: Listen, anf: Anforderung, k: Kandidat) {
    Answered(kat, l, k) && OwnTrade(kat, k) && NoKnockout(kat, anf, k, None) && FullyMet(kat, anf, k)
  }

  lemma ChooseTrade(kat: Katalog, l: Listen, anf: Anforderung) returns (bereich: string, beruf: string)
    requires Catalogued(kat, l) && Stored(kat, l, anf) && Coherent(kat, anf) && l.bereiche != {}
    ensures bereich in kat.berufe && beruf in kat.berufe[bereich]
    ensures anf.bereiche != [] ==> bereich in anf.bereiche
    ensures anf.berufe != [] ==> beruf in anf.berufe
  {
    if anf.bereiche != [] && anf.berufe != [] {
      bereich, beruf :|
        bereich in anf.bereiche && bereich in kat.berufe && beruf in kat.berufe[bereich] && beruf in anf.berufe;
    } else if anf.berufe != [] {
      beruf := anf.berufe[0];
      assert beruf in anf.berufe;
      bereich :| bereich in kat.berufe && beruf in kat.berufe[bereich];
    } else {
      bereich := if anf.bereiche != [] then anf.bereiche[0] else var b :| b in l.bereiche; b;
      assert anf.bereiche != [] ==> bereich in anf.bereiche;
      beruf := kat.berufe[bereich][0];
    }
  }

  /**
   * The form does not compare trades with occupations: a candidate working in
   * her own trade can meet a stored profile in full exactly when it is coherent.
   */
  lemma MetFromOwnTradeIff(kat: Katalog, l: Listen, anf: Anforderung, sonst: Kandidat)
    requires Catalogued(kat, l) && Stored(kat, l, anf) && Answered(kat, l, sonst)
    ensures (exists k :: MetFromOwnTrade(kat, l, anf, k)) <==> Coherent(kat, anf)
  {
    if k :| MetFromOwnTrade(kat, l, anf, k) {
      assert !Fails(kat, anf, k, None, ANDERER_BEREICH);
      if anf.berufe != [] {
        assert MeetsKey(kat, anf, k, BERUF);
      }
    }
    if Coherent(kat, anf) {
      var bereich, beruf := ChooseTrade(kat, l, anf);
      assert Taught(kat, beruf);
      var k := Wunschkandidat(anf, sonst).(bereich := Some(bereich), beruf := Some(beruf));
      WunschIsAnswered(kat, l, anf, sonst);
      WunschPasses(kat, l, anf, sonst, None);
      WunschFulfils(kat, l, anf, sonst);
      TradeSwapKeeps(kat, anf, Wunschkandidat(anf, sonst), bereich, beruf);
      assert MetFromOwnTrade(kat, l, anf, k);
    }
  }

  /** Another trade and occupation, both asked for, change nothing else. */
  lemma TradeSwapKeeps(kat: Katalog, anf: Anforderung, k: Kandidat, bereich: string, beruf: string)
    requires FullyMet(kat, anf, k) && NoKnockout(kat, anf, k, None) && Given(k.beruf)
    requires bereich != "" && beruf != ""
    requires anf.bereiche != [] ==> bereich in anf.bereiche
    requires anf.berufe != [] ==> beruf in anf.berufe
    ensures var k' := k.(bereich := Some(bereich), beruf := Some(beruf));
            FullyMet(kat, anf, k') && NoKnockout(kat, anf, k', None)
  {
    var k' := k.(bereich := Some(bereich), beruf := Some(beruf));
    forall g ensures !Fails(kat, anf, k', None, g) {
      assert !Fails(kat, anf, k, None, g);
    }
    forall key ensures MeetsKey(kat, anf, k', key) {
      assert MeetsKey(kat, anf, k, key);
    }
  }
}
