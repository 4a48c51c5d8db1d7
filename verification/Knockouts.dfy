// When an answer knocks a candidate out: starting from a candidate a posting
// describes, every single answer is changed in every possible way.
module Knockouts {
  import opened Common
  import opened Matching
  import opened MatchingLaws
  import opened Posting

  /** Exactly this reason applies if `applies`, and none otherwise. */
  ghost predicate OnlyIf(kat: Katalog, anf: Anforderung, k: Kandidat, lage: Option<Lage>, g: Grund, applies: bool) {
    forall h :: Fails(kat, anf, k, lage, h) <==> h == g && applies
  }

  /** A known answer ranked lower than the one that is asked for. */
  predicate TooLow(skala: map<string, nat>, antwort: Option<string>, verlangt: Option<string>) {
    && verlangt.Some? && verlangt.value in skala && antwort.Some? && antwort.value in skala
    && skala[antwort.value] < skala[verlangt.value]
  }

  /** Changing answers other than those that `g` looks at. */
  lemma ElseAsBefore(kat: Katalog, anf: Anforderung, k: Kandidat, k': Kandidat, lage: Option<Lage>, g: Grund)
    requires NoKnockout(kat, anf, k, lage)
    requires g != ANDERER_BEREICH ==> k'.bereich == k.bereich
    requires g != AUSBILDUNG ==> k'.ausbildungsstatus == k.ausbildungsstatus
    requires g != ZU_WENIG_AUFGABEN ==> k'.aufgaben == k.aufgaben
    requires g != MONTAGE ==> k'.montage == k.montage
    requires g != KEIN_FUEHRERSCHEIN ==> k'.fuehrerschein == k.fuehrerschein
    requires g != DEUTSCH ==> k'.deutsch == k.deutsch
    ensures forall h | h != g :: !Fails(kat, anf, k', lage, h)
  {
    forall h | h != g ensures !Fails(kat, anf, k', lage, h) {
      assert !Fails(kat, anf, k, lage, h);
    }
  }

  /** Training, travel and German: one rank too few is too few, and nothing else is. */
  lemma MinimumKnocksOutIff(kat: Katalog, l: Listen, anf: Anforderung, sonst: Kandidat, lage: Option<Lage>,
          antwort: Option<string>)
    requires Stored(kat, l, anf) && (lage.Some? ==> lage.value.imRadius)
    ensures var k := Wunschkandidat(anf, sonst);
            && OnlyIf(kat, anf, k.(ausbildungsstatus := antwort), lage, AUSBILDUNG,
                      TooLow(kat.ausbildung, antwort, anf.ausbildungMin))
            && OnlyIf(kat, anf, k.(montage := antwort), lage, MONTAGE, TooLow(kat.montage, antwort, anf.montageMin))
            && OnlyIf(kat, anf, k.(deutsch := antwort), lage, DEUTSCH, TooLow(kat.deutsch, antwort, anf.deutschMin))
  {
    var k := Wunschkandidat(anf, sonst);
    WunschPasses(kat, l, anf, sonst, lage);
    ElseAsBefore(kat, anf, k, k.(ausbildungsstatus := antwort), lage, AUSBILDUNG);
    ElseAsBefore(kat, anf, k, k.(montage := antwort), lage, MONTAGE);
    ElseAsBefore(kat, anf, k, k.(deutsch := antwort), lage, DEUTSCH);
  }

  /** A licence only matters if one of rank above zero is asked for, and then only to have none at all. */
  lemma LicenceKnocksOutIff(kat: Katalog, l: Listen, anf: Anforderung, sonst: Kandidat, lage: Option<Lage>,
          antwort: Option<string>)
    requires Stored(kat, l, anf) && (lage.Some? ==> lage.value.imRadius)
    ensures OnlyIf(kat, anf, Wunschkandidat(anf, sonst).(fuehrerschein := antwort), lage, KEIN_FUEHRERSCHEIN,
                   TooLow(kat.fuehrerschein, antwort, anf.fuehrerscheinMin) && kat.fuehrerschein[antwort.value] == 0)
  {
    var k := Wunschkandidat(anf, sonst);
    WunschPasses(kat, l, anf, sonst, lage);
    ElseAsBefore(kat, anf, k, k.(fuehrerschein := antwort), lage, KEIN_FUEHRERSCHEIN);
  }

  /** What occurs in both lists. */
  function Both(xs: seq<string>, ys: seq<string>): set<string> { set x | x in xs && x in ys }

  lemma BothFirst(first: string, rest: seq<string>, ys: seq<string>)
    requires first !in rest
    ensures |Both([first] + rest, ys)| == |Both(rest, ys)| + if first in ys then 1 else 0
  {
    var more := if first in ys then {first} else {};
    assert Both([first] + rest, ys) == Both(rest, ys) + more;
    assert Both(rest, ys) !! more;
  }

  lemma {:induction false} CountIsCard(xs: seq<string>, ys: seq<string>)
    requires Distinct(xs)
    ensures CountIn(xs, ys) == |Both(xs, ys)|
  {
    if xs != [] {
      CountIsCard(xs[1..], ys);
      assert xs == [xs[0]] + xs[1..] && xs[0] !in xs[1..];
      BothFirst(xs[0], xs[1..], ys);
    }
  }

  /** The tasks covered are counted, each once, whatever else the candidate can do. */
  lemma TasksKnockOutIff(kat: Katalog, l: Listen, anf: Anforderung, sonst: Kandidat, lage: Option<Lage>,
          antwort: seq<string>)
    requires Stored(kat, l, anf) && (lage.Some? ==> lage.value.imRadius)
    ensures OnlyIf(kat, anf, Wunschkandidat(anf, sonst).(aufgaben := antwort), lage, ZU_WENIG_AUFGABEN,
                   |Both(anf.aufgaben, antwort)| < anf.aufgabenMin)
  {
    var k := Wunschkandidat(anf, sonst);
    WunschPasses(kat, l, anf, sonst, lage);
    ElseAsBefore(kat, anf, k, k.(aufgaben := antwort), lage, ZU_WENIG_AUFGABEN);
    CountIsCard(anf.aufgaben, antwort);
  }

  /** A trade only matters if trades are asked for, and then only to name another one. */
  lemma TradeKnocksOutIff(kat: Katalog, l: Listen, anf: Anforderung, sonst: Kandidat, lage: Option<Lage>,
          antwort: Option<string>)
    requires Stored(kat, l, anf) && (lage.Some? ==> lage.value.imRadius)
    ensures OnlyIf(kat, anf, Wunschkandidat(anf, sonst).(bereich := antwort), lage, ANDERER_BEREICH,
                   anf.bereiche != [] && antwort.Some? && antwort.value != "" && antwort.value !in anf.bereiche)
  {
    var k := Wunschkandidat(anf, sonst);
    WunschPasses(kat, l, anf, sonst, lage);
    ElseAsBefore(kat, anf, k, k.(bereich := antwort), lage, ANDERER_BEREICH);
  }

  /** A place out of reach knocks out, whatever the posting asks for. */
  lemma DistanceKnocksOutIff(kat: Katalog, l: Listen, anf: Anforderung, sonst: Kandidat, lage: Option<Lage>)
    requires Stored(kat, l, anf)
    ensures OnlyIf(kat, anf, Wunschkandidat(anf, sonst), lage, ENTFERNUNG, lage.Some? && !lage.value.imRadius)
  {
    WunschPasses(kat, l, anf, sonst, None);
    forall h | h != ENTFERNUNG ensures !Fails(kat, anf, Wunschkandidat(anf, sonst), lage, h) {
      assert !Fails(kat, anf, Wunschkandidat(anf, sonst), None, h);
    }
  }

  /** Reasons are reported in this order. */
  const ORDER: seq<Grund> :=
    [ENTFERNUNG, ANDERER_BEREICH, AUSBILDUNG, ZU_WENIG_AUFGABEN, MONTAGE, KEIN_FUEHRERSCHEIN, DEUTSCH]

  lemma ReportedInOrder(kat: Katalog, anf: Anforderung, k: Kandidat, lage: Option<Lage>, raus: seq<Grund>, n: nat,
          i: nat, j: nat)
    requires Listed(kat, anf, k, lage, raus, n) && i < j < |raus|
    ensures exists a, b | 0 <= a < b < |ORDER| :: ORDER[a] == raus[i] && ORDER[b] == raus[j]
  {
    assert forall g :: Nr(g) < |ORDER| && ORDER[Nr(g)] == g;
    assert Nr(raus[i]) < Nr(raus[j]);
  }
}
