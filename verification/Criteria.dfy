// Which criteria a posting is judged on, from the form to the score, and what a
// single answer is worth.
module Criteria {
  import opened Common
  import opened ScoreArithmetic
  import opened Matching
  import opened MatchingLaws
  import opened Posting

  // ── What counts ─────────────────────────────────────────────────────────────

  predicate Filled(v: Option<string>) { v.Some? && v.value != "" }

  predicate FilledList(v: Option<seq<string>>) { v.Some? && v.value != [] }

  /** What the employer has filled in; a licence of rank zero is no licence. */
  predicate Asks(kat: Katalog, f: Form, key: Key) {
    match key
    case AUFGABEN => FilledList(f.aufgaben)
    case ERFAHRUNG => Filled(f.erfahrungMin) || Filled(f.erfahrungMax)
    case BERUF => FilledList(f.berufe)
    case PRIORITAETEN => FilledList(f.gebotenes)
    case FUEHRERSCHEIN =>
      && Filled(f.fuehrerscheinMin) && f.fuehrerscheinMin.value in kat.fuehrerschein
      && kat.fuehrerschein[f.fuehrerscheinMin.value] > 0
    case START => Filled(f.startBis)
  }

  /** A candidate who has answered everything is judged on exactly what the form asks and gives weight to. */
  lemma CountedIffAsked(kat: Katalog, l: Listen, f: Form, gewichte: Option<map<Key, real>>, k: Kandidat, key: Key)
    requires AnforderungsDaten(kat, l, f, gewichte).Some? && Answered(kat, l, k)
    ensures var anf := AnforderungsDaten(kat, l, f, gewichte).value;
            Counted(kat, anf, k, key) <==> Asks(kat, f, key) && Gewicht(anf, key) > 0.0
  {
    ListIsFilled(f.aufgaben);
    ListIsFilled(f.berufe);
    ListIsFilled(f.gebotenes);
  }

  lemma ListIsFilled(werte: Option<seq<string>>)
    ensures Liste(werte) != [] <==> FilledList(werte)
  {
    ListIsItsMembers(werte);
    if FilledList(werte) {
      assert werte.value[0] in Liste(werte);
    }
  }

  /** No answer, or one that the catalogue does not know. */
  predicate LeavesOpen(kat: Katalog, k: Kandidat, key: Key) {
    match key
    case AUFGABEN => k.aufgaben == []
    case ERFAHRUNG => k.erfahrung.Some? ==> k.erfahrung.value !in kat.erfahrung
    case BERUF => k.beruf.Some? ==> k.beruf.value == ""
    case PRIORITAETEN => k.prioritaeten == []
    case FUEHRERSCHEIN => k.fuehrerschein.Some? ==> k.fuehrerschein.value !in kat.fuehrerschein
    case START => k.start.Some? ==> k.start.value !in kat.start
  }

  /** The candidate with another answer to one question. */
  function With(k: Kandidat, key: Key, other: Kandidat): Kandidat {
    match key
    case AUFGABEN => k.(aufgaben := other.aufgaben)
    case ERFAHRUNG => k.(erfahrung := other.erfahrung)
    case BERUF => k.(beruf := other.beruf)
    case PRIORITAETEN => k.(prioritaeten := other.prioritaeten)
    case FUEHRERSCHEIN => k.(fuehrerschein := other.fuehrerschein)
    case START => k.(start := other.start)
  }

  lemma ElsewhereTheSame(kat: Katalog, anf: Anforderung, k: Kandidat, key: Key, other: Kandidat, elsewhere: Key)
    requires elsewhere != key
    ensures var k' := With(k, key, other);
            && Counted(kat, anf, k', elsewhere) == Counted(kat, anf, k, elsewhere)
            && (Counted(kat, anf, k, elsewhere) ==>
                  Erfuellung(kat, anf, k', elsewhere) == Erfuellung(kat, anf, k, elsewhere))
  {
  }

  lemma {:induction false} TermsWithout(kat: Katalog, anf: Anforderung, k: Kandidat, key: Key, other: Kandidat,
          keys: seq<Key>)
    requires key !in keys
    ensures Terms(kat, anf, With(k, key, other), keys) == Terms(kat, anf, k, keys)
  {
    if keys != [] {
      TermsWithout(kat, anf, k, key, other, keys[1..]);
      ElsewhereTheSame(kat, anf, k, key, other, keys[0]);
    }
  }

  /** The criteria before and after one of them. */
  function Others(keys: seq<Key>, key: Key): seq<Key> {
    if keys == [] then [] else (if keys[0] == key then [] else [keys[0]]) + Others(keys[1..], key)
  }

  /**
   * A question left open, or answered with something unknown, takes its criterion
   * out of the score and leaves the others as they were.
   */
  lemma {:induction false} OpenAnswerSkips(kat: Katalog, anf: Anforderung, k: Kandidat, key: Key, other: Kandidat,
          keys: seq<Key>)
    requires LeavesOpen(kat, other, key)
    ensures Terms(kat, anf, With(k, key, other), keys) == Terms(kat, anf, k, Others(keys, key))
  {
    if keys != [] {
      OpenAnswerSkips(kat, anf, k, key, other, keys[1..]);
      if keys[0] == key {
        assert !Counted(kat, anf, With(k, key, other), key);
        assert Others(keys, key) == Others(keys[1..], key);
      } else {
        ElsewhereTheSame(kat, anf, k, key, other, keys[0]);
        FirstTermOf(kat, anf, k, [keys[0]] + Others(keys[1..], key));
      }
    }
  }

  // ── What a criterion is worth ───────────────────────────────────────────────

  /** All six criteria count under the standard weights, and all but one are met in full. */
  ghost predicate MissesOnly(kat: Katalog, anf: Anforderung, k: Kandidat, key: Key, f: real) {
    && anf.gewichte.None?
    && forall other ::
         && Applies(kat, anf, k, other)
         && Erfuellung(kat, anf, k, other) == if other == key then f else 1.0
  }

  lemma AllSix(kat: Katalog, anf: Anforderung, k: Kandidat, key: Key, f: real)
    requires MissesOnly(kat, anf, k, key, f) && 0.0 <= f <= 1.0
    ensures Terms(kat, anf, k, KEYS) == Six(key, f)
  {
    forall other ensures Counted(kat, anf, k, other) && Clamp01(Erfuellung(kat, anf, k, other)) == Got(other, key, f) {
      assert Applies(kat, anf, k, other);
    }
    assert Terms(kat, anf, k, KEYS[6..]) == [];
    FirstTermOf(kat, anf, k, KEYS[5..]);
    FirstTermOf(kat, anf, k, KEYS[4..]);
    FirstTermOf(kat, anf, k, KEYS[3..]);
    FirstTermOf(kat, anf, k, KEYS[2..]);
    FirstTermOf(kat, anf, k, KEYS[1..]);
    FirstTermOf(kat, anf, k, KEYS);
  }

  function Got(other: Key, key: Key, f: real): real { if other == key then f else 1.0 }

  function Six(key: Key, f: real): seq<Term> {
    [Term(5.0, Got(AUFGABEN, key, f)), Term(4.0, Got(ERFAHRUNG, key, f)), Term(3.0, Got(BERUF, key, f)),
     Term(2.0, Got(PRIORITAETEN, key, f)), Term(2.0, Got(FUEHRERSCHEIN, key, f)), Term(1.0, Got(START, key, f))]
  }

  function Worth(key: Key): real {
    match key
    case AUFGABEN => 5.0
    case ERFAHRUNG => 4.0
    case BERUF => 3.0
    case PRIORITAETEN => 2.0
    case FUEHRERSCHEIN => 2.0
    case START => 1.0
  }

  lemma SumsOf(first: Term, rest: seq<Term>)
    ensures SumWeight([first] + rest) == first.weight + SumWeight(rest)
    ensures SumRounded([first] + rest) == Round2(Penalty(first)) + SumRounded(rest)
  {
    assert ([first] + rest)[1..] == rest;
  }

  lemma SumsOfSix(a: Term, b: Term, c: Term, d: Term, e: Term, g: Term)
    ensures var ts := [a, b, c, d, e, g];
            && SumWeight(ts) == a.weight + b.weight + c.weight + d.weight + e.weight + g.weight
            && SumRounded(ts) == Round2(Penalty(a)) + Round2(Penalty(b)) + Round2(Penalty(c)) + Round2(Penalty(d))
                                 + Round2(Penalty(e)) + Round2(Penalty(g))
  {
    SumsOf(g, []);
    SumsOf(e, [g]);
    SumsOf(d, [e, g]);
    SumsOf(c, [d, e, g]);
    SumsOf(b, [c, d, e, g]);
    SumsOf(a, [b, c, d, e, g]);
    assert [e] + [g] == [e, g] && [d] + [e, g] == [d, e, g] && [c] + [d, e, g] == [c, d, e, g];
    assert [b] + [c, d, e, g] == [b, c, d, e, g] && [a] + [b, c, d, e, g] == [a, b, c, d, e, g];
    assert [g] + [] == [g];
  }

  lemma SixSums(key: Key, f: real)
    ensures SumWeight(Six(key, f)) == 17.0 && SumRounded(Six(key, f)) == Round2(Worth(key) * (1.0 - f))
  {
    var ts := Six(key, f);
    SumsOfSix(ts[0], ts[1], ts[2], ts[3], ts[4], ts[5]);
    assert Round2(0.0) == 0.0;
  }

  /** The score that a total penalty leaves of six criteria. */
  lemma SixShown(kat: Katalog, anf: Anforderung, k: Kandidat, key: Key, f: real, penalty: real)
    requires MissesOnly(kat, anf, k, key, f) && 0.0 <= f <= 1.0
    requires Worth(key) * (1.0 - f) == penalty && Round2(penalty) == penalty
    ensures Base(kat, anf, k) == Clamp100(Round(100.0 * (1.0 - penalty / 17.0)))
  {
    AllSix(kat, anf, k, key, f);
    SixSums(key, f);
  }

  /**
   * Everything stated, everything answered, standard weights, and one criterion
   * missed altogether: this is what remains.
   */
  lemma OneMissLeaves(kat: Katalog, anf: Anforderung, k: Kandidat, key: Key)
    requires MissesOnly(kat, anf, k, key, 0.0)
    ensures Base(kat, anf, k) == match key
            case AUFGABEN => 71
            case ERFAHRUNG => 76
            case BERUF => 82
            case PRIORITAETEN => 88
            case FUEHRERSCHEIN => 88
            case START => 94
  {
    var w := Worth(key);
    assert Round2(1.0) == 1.0 && Round2(2.0) == 2.0 && Round2(3.0) == 3.0 && Round2(4.0) == 4.0 && Round2(5.0) == 5.0;
    SixShown(kat, anf, k, key, 0.0, w);
  }

  /**
   * On the licence scale as shipped, with everything else met: still learning
   * leaves 94, and class B where class C is asked for leaves 92, which is less.
   */
  lemma LicenceLeaves(kat: Katalog, anf: Anforderung, k: Kandidat)
    requires kat.fuehrerschein == FUEHRERSCHEINE && anf.gewichte.None?
    requires forall key :: Applies(kat, anf, k, key)
    requires forall key | key != FUEHRERSCHEIN :: Erfuellung(kat, anf, k, key) == 1.0
    ensures var soll, ist := anf.fuehrerscheinMin, k.fuehrerschein;
            && (ist == Some("fahrschule") && soll != ist ==> Base(kat, anf, k) == 94)
            && (ist == Some("b") && soll == Some("c") ==> Base(kat, anf, k) == 92)
            && (ist == Some("nein") ==> Base(kat, anf, k) == 92)
            && (ist == Some("c") || ist == soll ==> Base(kat, anf, k) == 100)
  {
    var f := Erfuellung(kat, anf, k, FUEHRERSCHEIN);
    assert forall other :: Applies(kat, anf, k, other) &&
                           Erfuellung(kat, anf, k, other) == if other == FUEHRERSCHEIN then f else 1.0;
    assert Round2(1.0) == 1.0 && Round2(1.4) == 1.4 && Round2(0.0) == 0.0;
    SixShown(kat, anf, k, FUEHRERSCHEIN, f, 2.0 * (1.0 - f));
  }
}
