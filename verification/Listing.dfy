// The job list a worker sees: every posting is scored, the excluded ones are
// counted by reason, the rest is filtered and sorted.
module Listing {
  import opened Common
  import opened Feedback
  import opened Location
  import opened Matching
  import opened MatchingLaws
  import opened ScoreArithmetic
  import opened StableSort

  // ── Building the entries ────────────────────────────────────────────────────

  /** What listing needs of a posting; `text` is its searchable text in lower case. */
  datatype Inserat = Inserat(
    id: string,
    anforderung: Anforderung,
    companyId: string,
    salaryMax: Option<int>,
    lat: Option<real>,
    lng: Option<real>,
    text: string,
    abendsZuhause: bool,
    fahrzeitIstArbeitszeit: bool,
    createdAt: int)

  datatype Job = Job(inserat: Inserat, travelMinutes: Option<int>, breakdown: Breakdown)

  function StelleVon(w: Arbeiter, p: Inserat): Stelle { Stelle(p.companyId, Minuten(w, p.lat, p.lng), p.salaryMax) }

  ghost predicate JobOk(j: Job) {
    Distinct(j.breakdown.knockouts) && (j.breakdown.passed <==> j.breakdown.knockouts == [])
  }

  /**
   * An entry: excluded exactly by a knockout, the reasons complete, and otherwise
   * the base score less what the refusals call for.
   */
  ghost predicate EntryFor(kat: Katalog, w: Arbeiter, k: Kandidat, declined: seq<Angebot>, p: Inserat, j: Job) {
    var lage, b, base := LageVon(w.dist, w.orte, p.lat, p.lng), j.breakdown, Base(kat, p.anforderung, k);
    && j.inserat == p && j.travelMinutes == Minuten(w, p.lat, p.lng) && JobOk(j)
    && (forall g :: g in b.knockouts <==> Fails(kat, p.anforderung, k, lage, g))
    && (b.passed <==> NoKnockout(kat, p.anforderung, k, lage))
    && b.score == (if b.passed then Endscore(w, declined, StelleVon(w, p), base) else 0)
    && (b.passed ==> Max(0, base - 40) <= b.score <= base)
    && |b.criteria| == |KEYS|
    && (forall i | 0 <= i < |KEYS| :: b.criteria[i].key == KEYS[i] && RowOk(kat, p.anforderung, k, b.criteria[i]))
  }

  method BuildJob(kat: Katalog, w: Arbeiter, k: Kandidat, declined: seq<Angebot>, p: Inserat) returns (j: Job)
    ensures EntryFor(kat, w, k, declined, p, j)
  {
    var b := Bewerte(kat, p.anforderung, k, LageVon(w.dist, w.orte, p.lat, p.lng));
    var near := NearestLocation(w.dist, w.orte, p.lat, p.lng);
    var minutes := if near.Some? then Some(TravelMinutes(Round(near.value.km * 10.0) as real / 10.0)) else None;
    b := Score(w, declined, Stelle(p.companyId, minutes, p.salaryMax), b);
    j := Job(p, minutes, b);
  }

  // ── Excluded postings by reason ─────────────────────────────────────────────

  datatype Anzahl = Anzahl(grund: Grund, anzahl: nat)

  function Bump(es: seq<Anzahl>, g: Grund): seq<Anzahl> {
    if es == [] then [Anzahl(g, 1)]
    else if es[0].grund == g then [Anzahl(g, es[0].anzahl + 1)] + es[1..]
    else [es[0]] + Bump(es[1..], g)
  }

  function BumpAll(es: seq<Anzahl>, gs: seq<Grund>): seq<Anzahl> {
    if gs == [] then es else Bump(BumpAll(es, gs[..|gs| - 1]), gs[|gs| - 1])
  }

  function Histogram(js: seq<Job>): seq<Anzahl> {
    if js == [] then [] else BumpAll(Histogram(js[..|js| - 1]), js[|js| - 1].breakdown.knockouts)
  }

  method Zaehle(js: seq<Job>) returns (proGrund: seq<Anzahl>)
    ensures proGrund == Histogram(js)
  {
    proGrund := [];
    for i := 0 to |js|
      invariant proGrund == Histogram(js[..i])
    {
      assert js[..i + 1][..i] == js[..i];
      var ks := js[i].breakdown.knockouts;
      ghost var before := proGrund;
      for n := 0 to |ks|
        invariant proGrund == BumpAll(before, ks[..n])
      {
        assert ks[..n + 1][..n] == ks[..n];
        proGrund := Bump(proGrund, ks[n]);
      }
      assert ks[..|ks|] == ks;
    }
    assert js[..|js|] == js;
  }

  /** The number of postings that fail on `g`. */
  function CountFailing(js: seq<Job>, g: Grund): nat {
    if js == [] then 0
    else CountFailing(js[..|js| - 1], g) + if g in js[|js| - 1].breakdown.knockouts then 1 else 0
  }

  function CountOf(es: seq<Anzahl>, g: Grund): nat {
    if es == [] then 0 else if es[0].grund == g then es[0].anzahl else CountOf(es[1..], g)
  }

  function Total(es: seq<Anzahl>): nat { SumOf(es, (e: Anzahl) => e.anzahl) }

  lemma TotalCons(e: Anzahl, rest: seq<Anzahl>)
    ensures Total([e] + rest) == e.anzahl + Total(rest)
  {
    SumSplits([e], rest, (x: Anzahl) => x.anzahl);
    assert [e][..0] == [];
  }

  ghost predicate Wellformed(es: seq<Anzahl>) {
    && (forall i, j | 0 <= i < j < |es| :: es[i].grund != es[j].grund)
    && (forall e | e in es :: e.anzahl > 0)
  }

  lemma {:induction false} ListedIffCounted(es: seq<Anzahl>, e: Anzahl)
    requires Wellformed(es)
    ensures e in es <==> e.anzahl > 0 && CountOf(es, e.grund) == e.anzahl
  {
    if es != [] {
      ListedIffCounted(es[1..], e);
      assert forall x | x in es[1..] :: x.grund != es[0].grund;
    }
  }

  lemma {:induction false} BumpTotal(es: seq<Anzahl>, g: Grund)
    ensures Total(Bump(es, g)) == Total(es) + 1
  {
    if es == [] {
      TotalCons(Anzahl(g, 1), []);
      assert Bump(es, g) == [Anzahl(g, 1)] + [];
    } else {
      var first, rest := es[0], es[1..];
      BumpTotal(rest, g);
      assert es == [first] + rest;
      TotalCons(first, rest);
      TotalCons(first, Bump(rest, g));
      TotalCons(Anzahl(g, first.anzahl + 1), rest);
    }
  }

  /** A reason keeps the place where it first occurred. */
  lemma {:induction false} BumpKeepsPlaces(es: seq<Anzahl>, g: Grund)
    ensures |es| <= |Bump(es, g)| && forall i | 0 <= i < |es| :: Bump(es, g)[i].grund == es[i].grund
  {
    if es != [] && es[0].grund != g {
      BumpKeepsPlaces(es[1..], g);
    }
  }

  lemma {:induction false} BumpCounts(es: seq<Anzahl>, g: Grund)
    requires Wellformed(es)
    ensures Wellformed(Bump(es, g))
    ensures forall h :: CountOf(Bump(es, g), h) == CountOf(es, h) + if h == g then 1 else 0
    ensures forall e | e in Bump(es, g) :: e.grund == g || e in es
  {
    if es != [] {
      var rest := es[1..];
      assert Wellformed(rest);
      BumpCounts(rest, g);
      assert es == [es[0]] + rest;
      assert ([es[0]] + Bump(rest, g))[1..] == Bump(rest, g);
      assert ([Anzahl(g, es[0].anzahl + 1)] + rest)[1..] == rest;
      assert forall x | x in rest :: x.grund != es[0].grund;
    }
  }

  lemma {:induction false} BumpAllCounts(es: seq<Anzahl>, gs: seq<Grund>)
    requires Wellformed(es) && Distinct(gs)
    ensures Wellformed(BumpAll(es, gs)) && Total(BumpAll(es, gs)) == Total(es) + |gs|
    ensures forall h :: CountOf(BumpAll(es, gs), h) == CountOf(es, h) + if h in gs then 1 else 0
  {
    if gs != [] {
      var n := |gs| - 1;
      assert gs == gs[..n] + [gs[n]];
      BumpAllCounts(es, gs[..n]);
      BumpCounts(BumpAll(es, gs[..n]), gs[n]);
      BumpTotal(BumpAll(es, gs[..n]), gs[n]);
    }
  }

  ghost predicate Excluded(js: seq<Job>) { forall i | 0 <= i < |js| :: JobOk(js[i]) && !js[i].breakdown.passed }

  /** Each count is the number of postings failing on that reason, and the counts add up to at least one per posting. */
  lemma {:induction false} HistogramMeans(js: seq<Job>)
    requires Excluded(js)
    ensures Wellformed(Histogram(js)) && |js| <= Total(Histogram(js))
    ensures forall g :: CountOf(Histogram(js), g) == CountFailing(js, g) <= |js|
  {
    if js != [] {
      var n := |js| - 1;
      HistogramMeans(js[..n]);
      BumpAllCounts(Histogram(js[..n]), js[n].breakdown.knockouts);
    }
  }

  // ── Filter and order ────────────────────────────────────────────────────────

  datatype Sortierung = RELEVANZ | FAHRZEIT | GEHALT | NEUESTE

  datatype Anfrage = Anfrage(
    needle: string,
    maxTravelMinutes: Option<int>,
    minSalary: Option<int>,
    abendsZuhause: bool,
    fahrzeitIstArbeitszeit: bool,
    sort: Sortierung)

  predicate Includes(text: string, needle: string) {
    needle <= text || (text != "" && Includes(text[1..], needle))
  }

  function OrZero(v: Option<int>): int { if v.Some? then v.value else 0 }

  /** A limit of zero is no limit. */
  predicate Wanted(q: Anfrage, j: Job) {
    && (q.needle != "" ==> Includes(j.inserat.text, q.needle))
    && (OrZero(q.maxTravelMinutes) != 0 ==> j.travelMinutes.Some? && j.travelMinutes.value <= q.maxTravelMinutes.value)
    && (OrZero(q.minSalary) != 0 ==> OrZero(j.inserat.salaryMax) >= q.minSalary.value)
    && (q.abendsZuhause ==> j.inserat.abendsZuhause)
    && (q.fahrzeitIstArbeitszeit ==> j.inserat.fahrzeitIstArbeitszeit)
  }

  function Weg(j: Job): int { if j.travelMinutes.Some? then j.travelMinutes.value else 9999 }

  /** At least one criterion was judged. */
  predicate Belegt(j: Job) { exists z | z in j.breakdown.criteria :: !z.skipped }

  /** `a` may stand before `b`: the comparator yields zero or less. */
  predicate Before(sort: Sortierung, a: Job, b: Job) {
    match sort
    case FAHRZEIT => Weg(a) <= Weg(b)
    case GEHALT => OrZero(a.inserat.salaryMax) >= OrZero(b.inserat.salaryMax)
    case NEUESTE => a.inserat.createdAt >= b.inserat.createdAt
    case RELEVANZ =>
      if Belegt(a) != Belegt(b) then Belegt(a)
      else if a.breakdown.score != b.breakdown.score then a.breakdown.score > b.breakdown.score
      else Weg(a) <= Weg(b)
  }

  lemma BeforeIsTotalPreorder(sort: Sortierung)
    ensures TotalPreorder((a: Job, b: Job) => Before(sort, a, b))
  {
  }

  function Select(js: seq<Job>, f: Job -> bool): seq<Job> {
    if js == [] then [] else Select(js[..|js| - 1], f) + if f(js[|js| - 1]) then [js[|js| - 1]] else []
  }

  lemma {:induction false} SelectMembers(js: seq<Job>, f: Job -> bool)
    ensures forall i | 0 <= i < |Select(js, f)| :: f(Select(js, f)[i]) && Select(js, f)[i] in js
  {
    if js != [] {
      SelectMembers(js[..|js| - 1], f);
    }
  }

  lemma {:induction false} SelectCount(js: seq<Job>, f: Job -> bool, x: Job)
    ensures multiset(Select(js, f))[x] == if f(x) then multiset(js)[x] else 0
  {
    if js != [] {
      var n := |js| - 1;
      SelectCount(js[..n], f, x);
      assert js == js[..n] + [js[n]];
    }
  }

  /** Filtering keeps the order. */
  lemma {:induction false} SelectKeepsOrder(js: seq<Job>, more: seq<Job>, f: Job -> bool)
    ensures Select(js + more, f) == Select(js, f) + Select(more, f)
  {
    if more == [] {
      assert js + more == js;
    } else {
      var n := |more| - 1;
      SelectKeepsOrder(js, more[..n], f);
      assert (js + more)[..|js| + n] == js + more[..n];
    }
  }

  ghost predicate ExactlyOne(f: Job -> bool, g: Job -> bool, h: Job -> bool, j: Job) {
    if f(j) then !g(j) && !h(j) else g(j) != h(j)
  }

  /** Three conditions of which exactly one holds of every entry split the list. */
  lemma SelectsPartition(js: seq<Job>, f: Job -> bool, g: Job -> bool, h: Job -> bool)
    requires forall j | j in js :: ExactlyOne(f, g, h, j)
    ensures multiset(js) == multiset(Select(js, f)) + multiset(Select(js, g)) + multiset(Select(js, h))
  {
    var union := multiset(Select(js, f)) + multiset(Select(js, g)) + multiset(Select(js, h));
    forall x ensures multiset(js)[x] == union[x] {
      SelectCount(js, f, x);
      SelectCount(js, g, x);
      SelectCount(js, h, x);
      assert x in multiset(js) <==> x in js;
    }
  }

  predicate Hidden(j: Job) { !j.breakdown.passed }

  predicate Shown(q: Anfrage, j: Job) { j.breakdown.passed && Wanted(q, j) }

  predicate Filtered(q: Anfrage, j: Job) { j.breakdown.passed && !Wanted(q, j) }

  /** Most frequent reason first. */
  predicate MoreFirst(a: Anzahl, b: Anzahl) { a.anzahl >= b.anzahl }

  datatype Ergebnis = Ergebnis(jobs: seq<Job>, gesamt: nat, gruende: seq<Anzahl>)

  /** What a listing of the entries `js` shows. */
  ghost predicate Lists(q: Anfrage, js: seq<Job>, r: Ergebnis) {
    var hidden := Select(js, (j: Job) => Hidden(j));
    && r.jobs == Sorted((a: Job, b: Job) => Before(q.sort, a, b), Select(js, (j: Job) => Shown(q, j)))
    && r.gesamt == |hidden|
    && r.gruende == Sorted((a: Anzahl, b: Anzahl) => MoreFirst(a, b), Histogram(hidden))
  }

  method Filtere(js: seq<Job>, f: Job -> bool) returns (r: seq<Job>)
    ensures r == Select(js, f)
  {
    r := [];
    for i := 0 to |js|
      invariant r == Select(js[..i], f)
    {
      assert js[..i + 1][..i] == js[..i];
      if f(js[i]) {
        r := r + [js[i]];
      }
    }
    assert js[..|js|] == js;
  }

  method ListJobs(kat: Katalog, w: Arbeiter, k: Kandidat, declined: seq<Angebot>, postings: seq<Inserat>, q: Anfrage)
    returns (r: Ergebnis, js: seq<Job>)
    ensures |js| == |postings| && forall i | 0 <= i < |js| :: EntryFor(kat, w, k, declined, postings[i], js[i])
    ensures Lists(q, js, r)
  {
    var jobs: seq<Job> := [];
    for i := 0 to |postings|
      invariant |jobs| == i && forall n | 0 <= n < i :: EntryFor(kat, w, k, declined, postings[n], jobs[n])
    {
      var j := BuildJob(kat, w, k, declined, postings[i]);
      jobs := jobs + [j];
    }
    js := jobs;
    var ausgeschlossen := Filtere(jobs, (j: Job) => Hidden(j));
    var proGrund := Zaehle(ausgeschlossen);
    jobs := Filtere(jobs, (j: Job) => Shown(q, j));
    r := Ergebnis(Sorted((a: Job, b: Job) => Before(q.sort, a, b), jobs), |ausgeschlossen|,
                  Sorted((a: Anzahl, b: Anzahl) => MoreFirst(a, b), proGrund));
  }

  // ── What a listing says ─────────────────────────────────────────────────────

  /** Every posting is shown, excluded or filtered out, exactly one of the three. */
  lemma ListingPartitions(q: Anfrage, js: seq<Job>, r: Ergebnis)
    requires Lists(q, js, r)
    ensures multiset(js)
            == multiset(r.jobs) + multiset(Select(js, (j: Job) => Hidden(j)))
               + multiset(Select(js, (j: Job) => Filtered(q, j)))
    ensures |js| == |r.jobs| + r.gesamt + |Select(js, (j: Job) => Filtered(q, j))|
  {
    var shown, hidden, filtered := (j: Job) => Shown(q, j), (j: Job) => Hidden(j), (j: Job) => Filtered(q, j);
    assert forall j | j in js :: ExactlyOne(shown, hidden, filtered, j);
    SelectsPartition(js, shown, hidden, filtered);
    BeforeIsTotalPreorder(q.sort);
    SortedMeans((a: Job, b: Job) => Before(q.sort, a, b), Select(js, shown));
    assert |multiset(js)| == |multiset(r.jobs)| + |multiset(Select(js, hidden))| + |multiset(Select(js, filtered))|;
  }

  /** The needle stands somewhere in the text. */
  ghost predicate Contains(text: string, needle: string) {
    exists before, after :: text == before + needle + after
  }

  lemma {:induction false} IncludesIffContains(text: string, needle: string)
    ensures Includes(text, needle) <==> Contains(text, needle)
  {
    if needle <= text {
      assert text == "" + needle + text[|needle|..];
    } else if text != "" {
      IncludesIffContains(text[1..], needle);
      if before, after :| text[1..] == before + needle + after {
        assert text == ([text[0]] + before) + needle + after;
      }
      if before, after :| text == before + needle + after {
        assert text == before + (needle + after);
        assert before != "" && text[1..] == before[1..] + needle + after;
      }
    }
  }

  /** Every limit that is set and not zero is kept; an unknown driving time keeps none, an unknown salary is 0. */
  ghost predicate KeepsLimits(q: Anfrage, j: Job) {
    && Contains(j.inserat.text, q.needle)
    && (q.maxTravelMinutes.Some? && q.maxTravelMinutes.value != 0 ==>
          j.travelMinutes.Some? && j.travelMinutes.value <= q.maxTravelMinutes.value)
    && (q.minSalary.Some? && q.minSalary.value != 0 ==>
          if j.inserat.salaryMax.Some? then j.inserat.salaryMax.value >= q.minSalary.value else 0 >= q.minSalary.value)
    && (q.abendsZuhause ==> j.inserat.abendsZuhause)
    && (q.fahrzeitIstArbeitszeit ==> j.inserat.fahrzeitIstArbeitszeit)
  }

  lemma WantedIsKept(q: Anfrage, j: Job)
    ensures Wanted(q, j) <==> KeepsLimits(q, j)
  {
    IncludesIffContains(j.inserat.text, q.needle);
  }

  /** What is shown is what passes and keeps every limit, as often as it occurs, and nothing else. */
  lemma ShownIff(q: Anfrage, js: seq<Job>, r: Ergebnis, j: Job)
    requires Lists(q, js, r)
    ensures multiset(r.jobs)[j] == if j.breakdown.passed && KeepsLimits(q, j) then multiset(js)[j] else 0
    ensures j in r.jobs <==> j in js && j.breakdown.passed && KeepsLimits(q, j)
  {
    var shown := Select(js, (x: Job) => Shown(q, x));
    BeforeIsTotalPreorder(q.sort);
    SortedMeans((a: Job, b: Job) => Before(q.sort, a, b), shown);
    SelectCount(js, (x: Job) => Shown(q, x), j);
    WantedIsKept(q, j);
    assert j in r.jobs <==> j in multiset(r.jobs);
    assert j in js <==> j in multiset(js);
  }

  /** `lax` asks for no more than `q` does. */
  ghost predicate Relaxes(lax: Anfrage, q: Anfrage) {
    && Contains(q.needle, lax.needle)
    && (lax.maxTravelMinutes.Some? && lax.maxTravelMinutes.value != 0 ==>
          && q.maxTravelMinutes.Some? && q.maxTravelMinutes.value != 0
          && q.maxTravelMinutes.value <= lax.maxTravelMinutes.value)
    && (lax.minSalary.Some? && lax.minSalary.value != 0 ==>
          q.minSalary.Some? && q.minSalary.value != 0 && q.minSalary.value >= lax.minSalary.value)
    && (lax.abendsZuhause ==> q.abendsZuhause)
    && (lax.fahrzeitIstArbeitszeit ==> q.fahrzeitIstArbeitszeit)
  }

  lemma ContainsIsTransitive(text: string, middle: string, needle: string)
    requires Contains(text, middle) && Contains(middle, needle)
    ensures Contains(text, needle)
  {
    var before, after :| text == before + middle + after;
    var left, right :| middle == left + needle + right;
    assert text == (before + left) + needle + (right + after);
  }

  /** Relaxing a limit never takes a job away, and never changes what is excluded. */
  lemma RelaxingKeepsJobs(q: Anfrage, lax: Anfrage, js: seq<Job>, r: Ergebnis, r': Ergebnis)
    requires Lists(q, js, r) && Lists(lax, js, r') && Relaxes(lax, q)
    ensures multiset(r.jobs) <= multiset(r'.jobs) && r'.gesamt == r.gesamt && r'.gruende == r.gruende
  {
    forall j ensures multiset(r.jobs)[j] <= multiset(r'.jobs)[j] {
      ShownIff(q, js, r, j);
      ShownIff(lax, js, r', j);
      if KeepsLimits(q, j) {
        ContainsIsTransitive(j.inserat.text, q.needle, lax.needle);
      }
    }
  }

  // ── What an entry says ──────────────────────────────────────────────────────

  /** An entry is backed by evidence exactly if some criterion counts for this worker and this posting. */
  lemma BelegtIff(kat: Katalog, w: Arbeiter, k: Kandidat, declined: seq<Angebot>, p: Inserat, j: Job)
    requires EntryFor(kat, w, k, declined, p, j)
    ensures Belegt(j) <==> exists key :: Counted(kat, p.anforderung, k, key)
  {
    var zs := j.breakdown.criteria;
    if key :| Counted(kat, p.anforderung, k, key) {
      EveryKeyListed(key);
      var i :| 0 <= i < |KEYS| && KEYS[i] == key;
      assert zs[i] in zs && !zs[i].skipped;
    }
    if z :| z in zs && !z.skipped {
      var i :| 0 <= i < |zs| && zs[i] == z;
      assert Counted(kat, p.anforderung, k, KEYS[i]);
    }
  }

  /**
   * The score of an entry that passes, in terms of the refused offers: 8, 16 or 20
   * points for the company, ten if it is too far, ten if it pays too little.
   */
  lemma EntryScore(kat: Katalog, w: Arbeiter, k: Kandidat, declined: seq<Angebot>, p: Inserat, j: Job)
    requires EntryFor(kat, w, k, declined, p, j) && j.breakdown.passed
    ensures var n := CountCompany(declined, p.companyId);
            j.breakdown.score == Max(0,
              Base(kat, p.anforderung, k)
              - (if n == 0 then 0 else if n == 1 then 8 else if n == 2 then 16 else 20)
              - (if FarAsRefused(w, declined, j.travelMinutes) then 10 else 0)
              - (if PaysAsRefused(declined, p.salaryMax) then 10 else 0))
  {
    CompanyRule(w, declined, StelleVon(w, p));
    TooFarRule(w, declined, StelleVon(w, p));
    PayRule(w, declined, StelleVon(w, p));
  }

  lemma HistogramListed(hidden: seq<Job>)
    requires Excluded(hidden)
    ensures forall e :: e in Histogram(hidden) <==> e.anzahl > 0 && e.anzahl == CountFailing(hidden, e.grund)
  {
    HistogramMeans(hidden);
    forall e ensures e in Histogram(hidden) <==> e.anzahl > 0 && e.anzahl == CountFailing(hidden, e.grund) {
      ListedIffCounted(Histogram(hidden), e);
    }
  }

  lemma SortedReasons(es: seq<Anzahl>, gruende: seq<Anzahl>)
    requires gruende == Sorted((a: Anzahl, b: Anzahl) => MoreFirst(a, b), es)
    ensures (forall e :: e in gruende <==> e in es) && Total(gruende) == Total(es)
    ensures forall i, j | 0 <= i < j < |gruende| :: gruende[i].anzahl >= gruende[j].anzahl
  {
    var le := (a: Anzahl, b: Anzahl) => MoreFirst(a, b);
    SortedMeans(le, es);
    SumIgnoresOrder(gruende, es, (e: Anzahl) => e.anzahl);
    forall e ensures e in gruende <==> e in es {
      assert e in multiset(gruende) <==> e in multiset(es);
    }
    assert forall i, j | 0 <= i < j < |gruende| :: le(gruende[i], gruende[j]);
  }

  /**
   * The reasons are those that occur, each once, with the number of excluded
   * postings failing on it, most frequent first; no count exceeds the number of
   * excluded postings, and together they reach it.
   */
  lemma ReasonsAddUp(q: Anfrage, js: seq<Job>, r: Ergebnis)
    requires Lists(q, js, r) && forall i | 0 <= i < |js| :: JobOk(js[i])
    ensures var hidden := Select(js, (j: Job) => Hidden(j));
            && (forall e :: e in r.gruende <==> e.anzahl > 0 && e.anzahl == CountFailing(hidden, e.grund))
            && (forall e | e in r.gruende :: e.anzahl <= r.gesamt)
            && r.gesamt <= Total(r.gruende)
    ensures forall i, j | 0 <= i < j < |r.gruende| :: r.gruende[i].anzahl >= r.gruende[j].anzahl
  {
    var hidden := Select(js, (j: Job) => Hidden(j));
    SelectMembers(js, (j: Job) => Hidden(j));
    forall i | 0 <= i < |hidden| ensures JobOk(hidden[i]) && !hidden[i].breakdown.passed {
      assert hidden[i] in js;
    }
    HistogramMeans(hidden);
    HistogramListed(hidden);
    SortedReasons(Histogram(hidden), r.gruende);
  }

  /** By default: judged postings first, then by score, then by driving time; ties keep their order. */
  lemma RelevanceOrder(q: Anfrage, js: seq<Job>, r: Ergebnis, i: nat, j: nat)
    requires Lists(q, js, r) && q.sort == RELEVANZ && i < j < |r.jobs|
    ensures var a, b := r.jobs[i], r.jobs[j];
            && (Belegt(b) ==> Belegt(a))
            && (Belegt(a) == Belegt(b) ==> a.breakdown.score >= b.breakdown.score)
            && (Belegt(a) == Belegt(b) && a.breakdown.score == b.breakdown.score ==> Weg(a) <= Weg(b))
    ensures Stable((a: Job, b: Job) => Before(q.sort, a, b), Select(js, (j: Job) => Shown(q, j)), r.jobs)
  {
    var le := (a: Job, b: Job) => Before(q.sort, a, b);
    BeforeIsTotalPreorder(q.sort);
    SortedMeans(le, Select(js, (j: Job) => Shown(q, j)));
    assert le(r.jobs[i], r.jobs[j]);
  }

  /** The other orders: shorter ways, higher salaries, newer postings first. */
  lemma ChosenOrder(q: Anfrage, js: seq<Job>, r: Ergebnis, i: nat, j: nat)
    requires Lists(q, js, r) && i < j < |r.jobs|
    ensures var a, b := r.jobs[i], r.jobs[j];
            && (q.sort == FAHRZEIT && b.travelMinutes.Some? && b.travelMinutes.value < 9999 ==>
                  a.travelMinutes.Some? && a.travelMinutes.value <= b.travelMinutes.value)
            && (q.sort == GEHALT && b.inserat.salaryMax.Some? && b.inserat.salaryMax.value > 0 ==>
                  a.inserat.salaryMax.Some? && a.inserat.salaryMax.value >= b.inserat.salaryMax.value)
            && (q.sort == NEUESTE ==> a.inserat.createdAt >= b.inserat.createdAt)
  {
    var le := (a: Job, b: Job) => Before(q.sort, a, b);
    BeforeIsTotalPreorder(q.sort);
    SortedMeans(le, Select(js, (j: Job) => Shown(q, j)));
    assert le(r.jobs[i], r.jobs[j]);
  }
}
