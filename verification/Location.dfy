// Where a job lies relative to the places a worker wants to work at. Everything
// holds for any distance function.
module Location {
  import opened Common
  import opened Matching

  datatype Arbeitsort = Arbeitsort(lat: real, lng: real, radiusKm: real, bezeichnung: string)

  /** The distance in km between two points given as latitude and longitude. */
  type Distance = (real, real, real, real) -> real

  datatype Naechster = Naechster(ort: Arbeitsort, km: real)

  function Km(dist: Distance, ort: Arbeitsort, lat: real, lng: real): real { dist(ort.lat, ort.lng, lat, lng) }

  /** Location `i` is the first of those that are nearest. */
  ghost predicate FirstNearest(dist: Distance, orte: seq<Arbeitsort>, lat: real, lng: real, i: nat)
    requires i < |orte|
  {
    && (forall j | 0 <= j < i :: Km(dist, orte[i], lat, lng) < Km(dist, orte[j], lat, lng))
    && (forall j | i <= j < |orte| :: Km(dist, orte[i], lat, lng) <= Km(dist, orte[j], lat, lng))
  }

  function Nearest(dist: Distance, orte: seq<Arbeitsort>, lat: Option<real>, lng: Option<real>): Option<Naechster> {
    if lat.None? || lng.None? || orte == [] then None
    else
      var last := orte[|orte| - 1];
      var before := Nearest(dist, orte[..|orte| - 1], lat, lng);
      var km := Km(dist, last, lat.value, lng.value);
      if before.None? || km < before.value.km then Some(Naechster(last, km)) else before
  }

  method NearestLocation(dist: Distance, orte: seq<Arbeitsort>, lat: Option<real>,
          lng: Option<real>) returns (best: Option<Naechster>)
    ensures best == Nearest(dist, orte, lat, lng)
  {
    best := None;
    if lat.None? || lng.None? || |orte| == 0 {
      return;
    }
    for n := 0 to |orte|
      invariant best == Nearest(dist, orte[..n], lat, lng)
    {
      assert orte[..n + 1][..n] == orte[..n];
      var d := Km(dist, orte[n], lat.value, lng.value);
      if best.None? || d < best.value.km {
        best := Some(Naechster(orte[n], d));
      }
    }
    assert orte[..|orte|] == orte;
  }

  /** Location `i` is the first nearest, and it is the answer. */
  ghost predicate Answer(dist: Distance, orte: seq<Arbeitsort>, lat: real, lng: real, i: nat) {
    && i < |orte| && FirstNearest(dist, orte, lat, lng, i)
    && Nearest(dist, orte, Some(lat), Some(lng)) == Some(Naechster(orte[i], Km(dist, orte[i], lat, lng)))
  }

  /** The answer is the first location at least distance. */
  lemma {:induction false} NearestIsFirstNearest(dist: Distance, orte: seq<Arbeitsort>, lat: real, lng: real)
    requires orte != []
    ensures exists i :: Answer(dist, orte, lat, lng, i)
  {
    var n := |orte| - 1;
    if n == 0 {
      assert Nearest(dist, orte[..n], Some(lat), Some(lng)).None?;
      assert Answer(dist, orte, lat, lng, 0);
    } else {
      NearestIsFirstNearest(dist, orte[..n], lat, lng);
      var i :| Answer(dist, orte[..n], lat, lng, i);
      OnePlaceMore(dist, orte, lat, lng, i);
    }
  }

  lemma OnePlaceMore(dist: Distance, orte: seq<Arbeitsort>, lat: real, lng: real, i: nat)
    requires orte != [] && Answer(dist, orte[..|orte| - 1], lat, lng, i)
    ensures exists j :: Answer(dist, orte, lat, lng, j)
  {
    var n := |orte| - 1;
    var front := orte[..n];
    assert forall j | 0 <= j < n :: front[j] == orte[j];
    if Km(dist, orte[n], lat, lng) < Km(dist, orte[i], lat, lng) {
      assert Answer(dist, orte, lat, lng, n);
    } else {
      assert Answer(dist, orte, lat, lng, i);
    }
  }

  lemma FirstNearestIsUnique(dist: Distance, orte: seq<Arbeitsort>, lat: real, lng: real, i: nat, j: nat)
    requires i < |orte| && j < |orte|
    requires FirstNearest(dist, orte, lat, lng, i) && FirstNearest(dist, orte, lat, lng, j)
    ensures i == j
  {
    var kmI, kmJ := Km(dist, orte[i], lat, lng), Km(dist, orte[j], lat, lng);
  }

  predicate Covers(dist: Distance, ort: Arbeitsort, lat: real, lng: real) {
    Km(dist, ort, lat, lng) <= ort.radiusKm
  }

  /** Distance to the nearest location, but whether ANY location's radius reaches the job. */
  function LageVon(dist: Distance, orte: seq<Arbeitsort>, lat: Option<real>, lng: Option<real>): Option<Lage> {
    var near := Nearest(dist, orte, lat, lng);
    if near.None? || lat.None? || lng.None? then None
    else Some(Lage(near.value.km, near.value.ort.radiusKm, near.value.ort.bezeichnung,
                   exists ort | ort in orte :: Covers(dist, ort, lat.value, lng.value)))
  }

  /** A distance knockout: both sides are known, and no location's radius reaches the job. */
  lemma DistanceKnockoutIff(kat: Katalog, anf: Anforderung, k: Kandidat, dist: Distance, orte: seq<Arbeitsort>,
          lat: Option<real>, lng: Option<real>)
    ensures Fails(kat, anf, k, LageVon(dist, orte, lat, lng), ENTFERNUNG) <==>
            && lat.Some? && lng.Some? && orte != []
            && forall ort | ort in orte :: dist(ort.lat, ort.lng, lat.value, lng.value) > ort.radiusKm
  {
  }

  /** What is said about the distance is said about the first of the nearest places. */
  lemma LageDescribesNearest(dist: Distance, orte: seq<Arbeitsort>, lat: real, lng: real, i: nat)
    requires i < |orte| && FirstNearest(dist, orte, lat, lng, i)
    ensures var lage, ort := LageVon(dist, orte, Some(lat), Some(lng)), orte[i];
            && lage.Some? && lage.value.km == dist(ort.lat, ort.lng, lat, lng)
            && lage.value.radiusKm == ort.radiusKm && lage.value.ort == ort.bezeichnung
  {
    NearestIsFirstNearest(dist, orte, lat, lng);
    var j :| Answer(dist, orte, lat, lng, j);
    FirstNearestIsUnique(dist, orte, lat, lng, i, j);
  }

  /**
   * One more place to work, anywhere in a nonempty list, never introduces a
   * distance knockout and never moves the job further away.
   */
  lemma MorePlaces(kat: Katalog, anf: Anforderung, k: Kandidat, dist: Distance,
                   vor: seq<Arbeitsort>, neu: Arbeitsort, nach: seq<Arbeitsort>, lat: Option<real>, lng: Option<real>)
    requires vor + nach != []
    ensures var alt, jetzt := LageVon(dist, vor + nach, lat, lng), LageVon(dist, vor + [neu] + nach, lat, lng);
            && (Fails(kat, anf, k, jetzt, ENTFERNUNG) ==> Fails(kat, anf, k, alt, ENTFERNUNG))
            && (alt.Some? <==> jetzt.Some?)
            && (alt.Some? ==> jetzt.value.km <= alt.value.km)
  {
    var few, many := vor + nach, vor + [neu] + nach;
    if lat.Some? && lng.Some? {
      assert forall ort :: ort in many <==> ort in few || ort == neu;
      NearestIsFirstNearest(dist, few, lat.value, lng.value);
      NearestIsFirstNearest(dist, many, lat.value, lng.value);
      assert forall ort | ort in many :: Nearest(dist, many, lat, lng).value.km <= Km(dist, ort, lat.value, lng.value);
    }
  }

  /** The first place a worker names introduces the knockout exactly when its radius falls short. */
  lemma FirstPlaceIff(kat: Katalog, anf: Anforderung, k: Kandidat, dist: Distance, neu: Arbeitsort,
          lat: Option<real>, lng: Option<real>)
    ensures !Fails(kat, anf, k, LageVon(dist, [], lat, lng), ENTFERNUNG)
    ensures Fails(kat, anf, k, LageVon(dist, [neu], lat, lng), ENTFERNUNG) <==>
            lat.Some? && lng.Some? && dist(neu.lat, neu.lng, lat.value, lng.value) > neu.radiusKm
  {
    if lat.Some? && lng.Some? {
      var reaches := Covers(dist, neu, lat.value, lng.value);
      assert [neu][0] in [neu] && reaches == (Km(dist, neu, lat.value, lng.value) <= neu.radiusKm);
    }
  }
}
