// Driving times from a remote routing service, cached in memory. A call asks for
// one table over the distinct points it lacks; several calls may overlap, so each
// step between two waits is a method of its own and relies on Valid() alone.
module Routing {
  import opened Common

  // ── Decimal text ────────────────────────────────────────────────────────────

  /** `x.toFixed(d)` for scale 10^d: a sign, also in front of a zero, and that many units. */
  datatype Fixed = Fixed(negative: bool, units: int)

  function Abs(x: real): real { if x < 0.0 then -x else x }

  function ToFixed(x: real, scale: int): Fixed { Fixed(x < 0.0, Round(Abs(x) * scale as real)) }

  /** The number such a text denotes. */
  function Value(f: Fixed, scale: int): real
    requires scale > 0
  {
    (if f.negative then -f.units else f.units) as real / scale as real
  }

  const KEY_SCALE := 10000
  const QUERY_SCALE := 1000

  // ── Points, keys and requests ───────────────────────────────────────────────

  datatype LatLng = LatLng(lat: real, lng: real)

  datatype Pair = Pair(from: LatLng, to: LatLng)

  datatype PointKey = PointKey(lat: Fixed, lng: Fixed)

  datatype Key = Key(from: PointKey, to: PointKey)

  type Cache = map<Key, int>

  function KeyOfPoint(p: LatLng): PointKey { PointKey(ToFixed(p.lat, KEY_SCALE), ToFixed(p.lng, KEY_SCALE)) }

  function KeyOf(a: LatLng, b: LatLng): Key { Key(KeyOfPoint(a), KeyOfPoint(b)) }

  /** The point named in the request: three decimals of each coordinate. */
  function Queried(p: LatLng): LatLng {
    LatLng(Value(ToFixed(p.lat, QUERY_SCALE), QUERY_SCALE), Value(ToFixed(p.lng, QUERY_SCALE), QUERY_SCALE))
  }

  /** One list of coordinates, and which of them are origins and destinations. */
  datatype Request = Request(coords: seq<LatLng>, srcIdx: seq<nat>, dstIdx: seq<nat>)

  /** A table may have short rows and entries that are not numbers. */
  datatype Reply = Failed | Table(durations: seq<seq<Option<real>>>)

  function Entry(t: seq<seq<Option<real>>>, i: nat, j: nat): Option<real> {
    if i < |t| && j < |t[i]| then t[i][j] else None
  }

  /** A request and what came back. */
  datatype Exchange = Exchange(request: Request, reply: Reply)

  /** The service says how many seconds the way takes between two points it was asked about. */
  datatype Answer = Answer(from: LatLng, to: LatLng, seconds: real)

  /** Entry (i, j) of the table is about the i-th origin and the j-th destination of the request. */
  ghost predicate Says(e: Exchange, i: nat, j: nat, a: Answer) {
    && e.reply.Table? && i < |e.request.srcIdx| && j < |e.request.dstIdx|
    && e.request.srcIdx[i] < |e.request.coords| && e.request.dstIdx[j] < |e.request.coords|
    && a.from == e.request.coords[e.request.srcIdx[i]] && a.to == e.request.coords[e.request.dstIdx[j]]
    && Entry(e.reply.durations, i, j) == Some(a.seconds)
  }

  ghost predicate Answered(log: seq<Exchange>, a: Answer) {
    exists n, i, j | 0 <= n < |log| :: Says(log[n], i, j, a)
  }

  function Minutes(seconds: real): int { Max(1, Round(seconds / 60.0)) }

  /** Never less than a minute, and from half a minute on the nearest whole one, halves going up. */
  lemma MinutesAreRounded(seconds: real)
    ensures Minutes(seconds) >= 1 && (seconds < 90.0 ==> Minutes(seconds) == 1)
    ensures seconds >= 30.0 ==> -30.0 <= Minutes(seconds) as real * 60.0 - seconds <= 30.0
    ensures seconds >= 30.0 ==> Minutes(seconds) as real * 60.0 - seconds > -30.0
  {
  }

  // ── What backs a cached value ───────────────────────────────────────────────

  predicate Within(p: LatLng, q: LatLng, tolerance: real) {
    Abs(p.lat - q.lat) <= tolerance && Abs(p.lng - q.lng) <= tolerance
  }

  function Centre(k: PointKey): LatLng { LatLng(Value(k.lat, KEY_SCALE), Value(k.lng, KEY_SCALE)) }

  predicate Backs(a: Answer, k: Key, minutes: int) {
    minutes == Minutes(a.seconds) && Within(a.from, Centre(k.from), 0.00055) && Within(a.to, Centre(k.to), 0.00055)
  }

  ghost predicate Backed(log: seq<Exchange>, k: Key, minutes: int) {
    exists a :: Answered(log, a) && Backs(a, k, minutes)
  }

  ghost predicate Faithful(cache: Cache, log: seq<Exchange>) {
    forall k | k in cache :: Backed(log, k, cache[k])
  }

  /** The service's own answer for points within 0.0006 degrees of the pair, in whole minutes. */
  ghost predicate Accurate(log: seq<Exchange>, p: Pair, minutes: int) {
    exists a ::
      && Answered(log, a) && minutes == Minutes(a.seconds)
      && Within(a.from, p.from, 0.0006) && Within(a.to, p.to, 0.0006)
  }

  lemma PointIsNearItsKey(p: LatLng)
    ensures Within(p, Centre(KeyOfPoint(p)), 0.00005) && Within(Queried(p), Centre(KeyOfPoint(p)), 0.00055)
  {
  }

  /** `n` ten-thousandths are nearest to the absolute value, halves going outwards. */
  predicate InCell(x: real, n: nat) { n as real - 0.5 <= Abs(x) * 10000.0 < n as real + 0.5 }

  ghost predicate SameCell(x: real, y: real) { (x < 0.0 <==> y < 0.0) && exists n :: InCell(x, n) && InCell(y, n) }

  lemma CellIsUnits(x: real, n: nat)
    ensures InCell(x, n) <==> ToFixed(x, KEY_SCALE).units == n
  {
    RoundIsNearest(Abs(x) * 10000.0);
  }

  lemma SameFixedIff(x: real, y: real)
    ensures SameCell(x, y) <==> ToFixed(x, KEY_SCALE) == ToFixed(y, KEY_SCALE)
  {
    var f := ToFixed(x, KEY_SCALE);
    assert f.units >= 0 by {
      RoundIsNearest(Abs(x) * 10000.0);
    }
    CellIsUnits(x, f.units);
    CellIsUnits(y, f.units);
    if n: nat :| InCell(x, n) && InCell(y, n) {
      CellIsUnits(x, n);
      CellIsUnits(y, n);
    }
  }

  /** Two points share a key exactly if both coordinates agree to four decimals. */
  lemma SameKeyIff(p: LatLng, q: LatLng)
    ensures KeyOfPoint(p) == KeyOfPoint(q) <==> SameCell(p.lat, q.lat) && SameCell(p.lng, q.lng)
  {
    SameFixedIff(p.lat, q.lat);
    SameFixedIff(p.lng, q.lng);
  }

  predicate Thousandths(x: real, n: int) { x * 1000.0 == n as real }

  /** What is asked about has three decimals, and is the nearest such point. */
  lemma QueriedIsCoarse(p: LatLng)
    ensures (exists n :: Thousandths(Queried(p).lat, n)) && (exists n :: Thousandths(Queried(p).lng, n))
    ensures Within(Queried(p), p, 0.0005)
  {
    var x, y := ToFixed(p.lat, QUERY_SCALE), ToFixed(p.lng, QUERY_SCALE);
    var n, m := if x.negative then -x.units else x.units, if y.negative then -y.units else y.units;
    assert Thousandths(Queried(p).lat, n) && Thousandths(Queried(p).lng, m);
  }

  lemma BackedIsAccurate(log: seq<Exchange>, p: Pair, minutes: int)
    requires Backed(log, KeyOf(p.from, p.to), minutes)
    ensures Accurate(log, p, minutes)
  {
  }

  // ── Distinct points ─────────────────────────────────────────────────────────

  /** `seen.set(key, p)`: a known key keeps its place and takes the new point. */
  function Put(seen: seq<LatLng>, p: LatLng): seq<LatLng> {
    if seen == [] then [p]
    else if KeyOfPoint(seen[0]) == KeyOfPoint(p) then [p] + seen[1..]
    else [seen[0]] + Put(seen[1..], p)
  }

  function Uniq(points: seq<LatLng>): seq<LatLng> {
    if points == [] then [] else Put(Uniq(points[..|points| - 1]), points[|points| - 1])
  }

  function KeysOf(points: seq<LatLng>): set<PointKey> {
    if points == [] then {} else {KeyOfPoint(points[0])} + KeysOf(points[1..])
  }

  ghost predicate DistinctKeys(points: seq<LatLng>) {
    forall i, j | 0 <= i < j < |points| :: KeyOfPoint(points[i]) != KeyOfPoint(points[j])
  }

  lemma {:induction false} KeyListed(points: seq<LatLng>, k: PointKey)
    ensures k in KeysOf(points) <==> exists i | 0 <= i < |points| :: KeyOfPoint(points[i]) == k
  {
    if points != [] {
      KeyListed(points[1..], k);
      if i :| 0 <= i < |points| && KeyOfPoint(points[i]) == k {
        assert i > 0 ==> points[1..][i - 1] == points[i];
      }
    }
  }

  lemma {:induction false} KeysOfAppend(xs: seq<LatLng>, ys: seq<LatLng>)
    ensures KeysOf(xs + ys) == KeysOf(xs) + KeysOf(ys)
  {
    if xs == [] {
      assert xs + ys == ys;
    } else {
      KeysOfAppend(xs[1..], ys);
      assert (xs + ys)[1..] == xs[1..] + ys;
    }
  }

  lemma DistinctCons(p: LatLng, rest: seq<LatLng>)
    ensures DistinctKeys([p] + rest) <==> DistinctKeys(rest) && KeyOfPoint(p) !in KeysOf(rest)
  {
    var all := [p] + rest;
    KeyListed(rest, KeyOfPoint(p));
    assert forall i | 0 <= i < |rest| :: rest[i] == all[i + 1];
    if KeyOfPoint(p) in KeysOf(rest) {
      var i :| 0 <= i < |rest| && KeyOfPoint(rest[i]) == KeyOfPoint(p);
      assert KeyOfPoint(all[i + 1]) == KeyOfPoint(all[0]);
    }
  }

  lemma {:induction false} PutAddsKey(seen: seq<LatLng>, p: LatLng)
    requires DistinctKeys(seen)
    ensures KeysOf(Put(seen, p)) == KeysOf(seen) + {KeyOfPoint(p)}
    ensures DistinctKeys(Put(seen, p))
  {
    if seen != [] {
      var first, rest := seen[0], seen[1..];
      assert seen == [first] + rest;
      PutAddsKey(rest, p);
      DistinctCons(first, rest);
      DistinctCons(p, rest);
      DistinctCons(first, Put(rest, p));
      assert ([p] + rest)[1..] == rest && ([first] + Put(rest, p))[1..] == Put(rest, p);
    }
  }

  /** One point for each key that occurs. */
  lemma {:induction false} UniqKeepsKeys(points: seq<LatLng>)
    ensures KeysOf(Uniq(points)) == KeysOf(points) && DistinctKeys(Uniq(points))
    ensures |Uniq(points)| == |KeysOf(points)|
  {
    if points != [] {
      var n := |points| - 1;
      UniqKeepsKeys(points[..n]);
      PutAddsKey(Uniq(points[..n]), points[n]);
      assert points == points[..n] + [points[n]];
      KeysOfAppend(points[..n], [points[n]]);
    }
    DistinctCount(Uniq(points));
  }

  lemma {:induction false} PutMembers(seen: seq<LatLng>, p: LatLng)
    requires DistinctKeys(seen)
    ensures forall q | q in Put(seen, p) :: q == p || (q in seen && KeyOfPoint(q) != KeyOfPoint(p))
  {
    if seen != [] {
      var first, rest := seen[0], seen[1..];
      assert seen == [first] + rest;
      DistinctCons(first, rest);
      PutMembers(rest, p);
      KeyListed(rest, KeyOfPoint(first));
    }
  }

  /** The points begin with one for each key of `first`, in that order. */
  ghost predicate StartsAlike(first: seq<LatLng>, points: seq<LatLng>) {
    |first| <= |points| && forall i | 0 <= i < |first| :: KeyOfPoint(points[i]) == KeyOfPoint(first[i])
  }

  lemma {:induction false} PutKeepsPlaces(seen: seq<LatLng>, p: LatLng)
    ensures StartsAlike(seen, Put(seen, p))
  {
    if seen != [] && KeyOfPoint(seen[0]) != KeyOfPoint(p) {
      PutKeepsPlaces(seen[1..], p);
    }
  }

  /** Further points are added at the end, or take the place that their key has. */
  lemma {:induction false} UniqKeepsPlaces(points: seq<LatLng>, more: seq<LatLng>)
    ensures StartsAlike(Uniq(points), Uniq(points + more))
  {
    if more == [] {
      assert points + more == points;
    } else {
      var n := |more| - 1;
      UniqKeepsPlaces(points, more[..n]);
      assert (points + more)[..|points| + n] == points + more[..n];
      PutKeepsPlaces(Uniq(points + more[..n]), more[n]);
    }
  }

  ghost predicate LastOfItsKey(points: seq<LatLng>, p: LatLng) {
    exists i | 0 <= i < |points| ::
      points[i] == p && forall j | i < j < |points| :: KeyOfPoint(points[j]) != KeyOfPoint(p)
  }

  lemma LastOfItsKeyStays(points: seq<LatLng>, q: LatLng, p: LatLng)
    requires p == q || (LastOfItsKey(points, p) && KeyOfPoint(p) != KeyOfPoint(q))
    ensures LastOfItsKey(points + [q], p)
  {
    var n, all := |points|, points + [q];
    if p == q {
      assert all[n] == p;
    } else {
      var i :| 0 <= i < n && points[i] == p && forall j | i < j < n :: KeyOfPoint(points[j]) != KeyOfPoint(p);
      assert all[i] == p && forall j | i < j < n :: all[j] == points[j];
    }
  }

  /** Of several points with one key, the last one is asked about. */
  lemma {:induction false} UniqTakesLast(points: seq<LatLng>)
    ensures forall p | p in Uniq(points) :: LastOfItsKey(points, p)
  {
    if points != [] {
      var n := |points| - 1;
      var front := points[..n];
      UniqTakesLast(front);
      UniqKeepsKeys(front);
      PutMembers(Uniq(front), points[n]);
      assert points == front + [points[n]];
      forall p | p in Uniq(points) ensures LastOfItsKey(points, p) {
        LastOfItsKeyStays(front, points[n], p);
      }
    }
  }

  lemma {:induction false} DistinctCount(points: seq<LatLng>)
    requires DistinctKeys(points)
    ensures |points| == |KeysOf(points)|
  {
    if points != [] {
      assert points == [points[0]] + points[1..];
      DistinctCons(points[0], points[1..]);
      DistinctCount(points[1..]);
    }
  }

  // ── Filling the cache ───────────────────────────────────────────────────────

  /** The first `j` entries of row `i`, in order. */
  function FillRow(base: Cache, sources: seq<LatLng>, destinations: seq<LatLng>, t: seq<seq<Option<real>>>,
          i: nat, j: nat): Cache
    requires i < |sources| && j <= |destinations|
  {
    if j == 0 then base
    else
      var before := FillRow(base, sources, destinations, t, i, j - 1);
      var seconds := Entry(t, i, j - 1);
      if seconds.None? then before else before[KeyOf(sources[i], destinations[j - 1]) := Minutes(seconds.value)]
  }

  function FillRows(base: Cache, sources: seq<LatLng>, destinations: seq<LatLng>, t: seq<seq<Option<real>>>,
          i: nat): Cache
    requires i <= |sources|
  {
    if i == 0 then base
    else FillRow(FillRows(base, sources, destinations, t, i - 1), sources, destinations, t, i - 1, |destinations|)
  }

  /** The cache after a reply: emptied first if it has grown too large. */
  function CacheAfter(cache: Cache, sources: seq<LatLng>, destinations: seq<LatLng>, reply: Reply): Cache {
    if reply.Failed? then cache
    else FillRows(if |cache| > CACHE_MAX then map[] else cache, sources, destinations, reply.durations, |sources|)
  }

  const CACHE_MAX := 10000
  const TABLE_MAX := 90

  function RequestFor(sources: seq<LatLng>, destinations: seq<LatLng>): Request {
    Request(
      seq(|sources| + |destinations|, i requires 0 <= i < |sources| + |destinations| =>
        Queried(if i < |sources| then sources[i] else destinations[i - |sources|])),
      seq(|sources|, i => i),
      seq(|destinations|, j requires 0 <= j => j + |sources|))
  }

  lemma BackedStays(log: seq<Exchange>, e: Exchange, k: Key, minutes: int)
    requires Backed(log, k, minutes)
    ensures Backed(log + [e], k, minutes)
  {
    var a :| Answered(log, a) && Backs(a, k, minutes);
    var n, i, j :| 0 <= n < |log| && Says(log[n], i, j, a);
    assert Says((log + [e])[n], i, j, a);
  }

  /** An entry of the table backs the key of its pair: the indices in the request point at the right coordinates. */
  lemma EntryIsBacked(log: seq<Exchange>, sources: seq<LatLng>, destinations: seq<LatLng>,
          t: seq<seq<Option<real>>>, i: nat, j: nat)
    requires i < |sources| && j < |destinations| && Entry(t, i, j).Some?
    ensures Backed(log + [Exchange(RequestFor(sources, destinations), Table(t))],
                   KeyOf(sources[i], destinations[j]), Minutes(Entry(t, i, j).value))
  {
    var e := Exchange(RequestFor(sources, destinations), Table(t));
    var a := Answer(Queried(sources[i]), Queried(destinations[j]), Entry(t, i, j).value);
    PointIsNearItsKey(sources[i]);
    PointIsNearItsKey(destinations[j]);
    assert Says(e, i, j, a);
    assert (log + [e])[|log|] == e;
    assert Answered(log + [e], a) && Backs(a, KeyOf(sources[i], destinations[j]), Minutes(a.seconds));
  }

  lemma {:induction false} RowKeepsFaith(base: Cache, log: seq<Exchange>, sources: seq<LatLng>,
          destinations: seq<LatLng>, t: seq<seq<Option<real>>>, i: nat, j: nat)
    requires i < |sources| && j <= |destinations|
    requires Faithful(base, log + [Exchange(RequestFor(sources, destinations), Table(t))])
    ensures Faithful(FillRow(base, sources, destinations, t, i, j),
                     log + [Exchange(RequestFor(sources, destinations), Table(t))])
  {
    if j > 0 {
      RowKeepsFaith(base, log, sources, destinations, t, i, j - 1);
      if Entry(t, i, j - 1).Some? {
        EntryIsBacked(log, sources, destinations, t, i, j - 1);
      }
    }
  }

  lemma {:induction false} RowsKeepFaith(base: Cache, log: seq<Exchange>, sources: seq<LatLng>,
          destinations: seq<LatLng>, t: seq<seq<Option<real>>>, i: nat)
    requires i <= |sources|
    requires Faithful(base, log + [Exchange(RequestFor(sources, destinations), Table(t))])
    ensures Faithful(FillRows(base, sources, destinations, t, i),
                     log + [Exchange(RequestFor(sources, destinations), Table(t))])
  {
    if i > 0 {
      RowsKeepFaith(base, log, sources, destinations, t, i - 1);
      RowKeepsFaith(FillRows(base, sources, destinations, t, i - 1), log, sources, destinations, t, i - 1,
          |destinations|);
    }
  }

  /** Whatever the service replies, every cached value stays backed by one of its answers. */
  lemma ReplyKeepsFaith(cache: Cache, log: seq<Exchange>, sources: seq<LatLng>, destinations: seq<LatLng>, reply: Reply)
    requires Faithful(cache, log)
    ensures Faithful(CacheAfter(cache, sources, destinations, reply),
                     log + [Exchange(RequestFor(sources, destinations), reply)])
  {
    var e := Exchange(RequestFor(sources, destinations), reply);
    forall k | k in cache ensures Backed(log + [e], k, cache[k]) {
      BackedStays(log, e, k, cache[k]);
    }
    if reply.Table? {
      var base := if |cache| > CACHE_MAX then map[] else cache;
      RowsKeepFaith(base, log, sources, destinations, reply.durations, |sources|);
    }
  }

  // ── Which pairs have a value afterwards ─────────────────────────────────────

  lemma {:induction false} RowKeys(base: Cache, sources: seq<LatLng>, destinations: seq<LatLng>,
          t: seq<seq<Option<real>>>, i: nat, j: nat, k: Key)
    requires i < |sources| && j <= |destinations|
    ensures k in FillRow(base, sources, destinations, t, i, j) <==>
            k in base || exists c | 0 <= c < j :: KeyOf(sources[i], destinations[c]) == k && Entry(t, i, c).Some?
  {
    if j > 0 {
      RowKeys(base, sources, destinations, t, i, j - 1, k);
    }
  }

  /** Some entry of the first `n` rows of the table is a number for the key. */
  ghost predicate Delivered(sources: seq<LatLng>, destinations: seq<LatLng>, t: seq<seq<Option<real>>>, n: nat, k: Key)
    requires n <= |sources|
  {
    exists i, j | 0 <= i < n && 0 <= j < |destinations| ::
      KeyOf(sources[i], destinations[j]) == k && Entry(t, i, j).Some?
  }

  lemma {:induction false} RowsKeys(base: Cache, sources: seq<LatLng>, destinations: seq<LatLng>,
          t: seq<seq<Option<real>>>, n: nat, k: Key)
    requires n <= |sources|
    ensures k in FillRows(base, sources, destinations, t, n) <==> k in base || Delivered(sources, destinations, t, n, k)
  {
    if n > 0 {
      RowsKeys(base, sources, destinations, t, n - 1, k);
      RowKeys(FillRows(base, sources, destinations, t, n - 1), sources, destinations, t, n - 1, |destinations|, k);
    }
  }

  /**
   * A pair has a value after a table arrived exactly when the table delivered
   * one, or it was cached before and the cache had not outgrown its limit.
   */
  lemma HasValueIff(cache: Cache, sources: seq<LatLng>, destinations: seq<LatLng>, reply: Reply, k: Key)
    requires reply.Table?
    ensures k in CacheAfter(cache, sources, destinations, reply) <==>
            || (k in cache && |cache| <= 10_000)
            || Delivered(sources, destinations, reply.durations, |sources|, k)
  {
    RowsKeys(if |cache| > CACHE_MAX then map[] else cache, sources, destinations, reply.durations, |sources|, k);
  }

  lemma {:induction false} RowValue(base: Cache, sources: seq<LatLng>, destinations: seq<LatLng>,
          t: seq<seq<Option<real>>>, i: nat, j: nat, n: nat)
    requires i < |sources| && j < n <= |destinations| && DistinctKeys(destinations) && Entry(t, i, j).Some?
    ensures var k, row := KeyOf(sources[i], destinations[j]), FillRow(base, sources, destinations, t, i, n);
            k in row && row[k] == Minutes(Entry(t, i, j).value)
  {
    if j < n - 1 {
      RowValue(base, sources, destinations, t, i, j, n - 1);
    }
  }

  lemma {:induction false} RowElsewhere(base: Cache, sources: seq<LatLng>, destinations: seq<LatLng>,
          t: seq<seq<Option<real>>>, i: nat, n: nat, k: Key)
    requires i < |sources| && n <= |destinations| && k in base && k.from != KeyOfPoint(sources[i])
    ensures var row := FillRow(base, sources, destinations, t, i, n); k in row && row[k] == base[k]
  {
    if n > 0 {
      RowElsewhere(base, sources, destinations, t, i, n - 1, k);
    }
  }

  lemma {:induction false} RowsValue(base: Cache, sources: seq<LatLng>, destinations: seq<LatLng>,
          t: seq<seq<Option<real>>>, i: nat, j: nat, m: nat)
    requires i < m <= |sources| && j < |destinations| && Entry(t, i, j).Some?
    requires DistinctKeys(sources) && DistinctKeys(destinations)
    ensures var k, all := KeyOf(sources[i], destinations[j]), FillRows(base, sources, destinations, t, m);
            k in all && all[k] == Minutes(Entry(t, i, j).value)
  {
    var before := FillRows(base, sources, destinations, t, m - 1);
    if i == m - 1 {
      RowValue(before, sources, destinations, t, i, j, |destinations|);
    } else {
      RowsValue(base, sources, destinations, t, i, j, m - 1);
      RowElsewhere(before, sources, destinations, t, m - 1, |destinations|, KeyOf(sources[i], destinations[j]));
    }
  }

  /** What the table says about a pair of points is what is cached for it, whatever was cached before. */
  lemma DeliveredIsCached(cache: Cache, sources: seq<LatLng>, destinations: seq<LatLng>, reply: Reply, i: nat, j: nat)
    requires DistinctKeys(sources) && DistinctKeys(destinations) && i < |sources| && j < |destinations|
    requires reply.Table? && Entry(reply.durations, i, j).Some?
    ensures var k, after := KeyOf(sources[i], destinations[j]), CacheAfter(cache, sources, destinations, reply);
            k in after && after[k] == Minutes(Entry(reply.durations, i, j).value)
  {
    RowsValue(if |cache| > CACHE_MAX then map[] else cache, sources, destinations, reply.durations, i, j, |sources|);
  }

  // ── Size ────────────────────────────────────────────────────────────────────

  lemma UpdateCard(m: Cache, k: Key, v: int)
    ensures |m[k := v]| <= |m| + 1
  {
  }

  lemma {:induction false} RowCard(base: Cache, sources: seq<LatLng>, destinations: seq<LatLng>,
          t: seq<seq<Option<real>>>, i: nat, j: nat)
    requires i < |sources| && j <= |destinations|
    ensures |FillRow(base, sources, destinations, t, i, j)| <= |base| + j
  {
    if j > 0 {
      RowCard(base, sources, destinations, t, i, j - 1);
      if Entry(t, i, j - 1).Some? {
        UpdateCard(FillRow(base, sources, destinations, t, i, j - 1), KeyOf(sources[i], destinations[j - 1]),
                   Minutes(Entry(t, i, j - 1).value));
      }
    }
  }

  lemma {:induction false} RowsCard(base: Cache, sources: seq<LatLng>, destinations: seq<LatLng>,
          t: seq<seq<Option<real>>>, i: nat)
    requires i <= |sources|
    ensures |FillRows(base, sources, destinations, t, i)| <= |base| + i * |destinations|
  {
    if i > 0 {
      RowsCard(base, sources, destinations, t, i - 1);
      RowCard(FillRows(base, sources, destinations, t, i - 1), sources, destinations, t, i - 1, |destinations|);
      assert i * |destinations| == (i - 1) * |destinations| + |destinations|;
    }
  }

  lemma TableArea(s: nat, d: nat)
    requires s + d <= TABLE_MAX || d == 1
    ensures s * d <= Max(2025, s)
  {
  }

  /** The destinations a request keeps: all, or as many as fit beside the origins, but one at least. */
  function Truncated(sources: seq<LatLng>, destinations: seq<LatLng>): seq<LatLng> {
    if |sources| + |destinations| > TABLE_MAX && destinations != []
    then destinations[..Max(1, TABLE_MAX - |sources|)]
    else destinations
  }

  /** A prefix: all of them if the table stays within 90 points, otherwise as many as that allows, one at least. */
  lemma TruncatedMeans(sources: seq<LatLng>, destinations: seq<LatLng>)
    requires destinations != []
    ensures var kept := Truncated(sources, destinations);
            && kept <= destinations && kept != []
            && (|sources| + |destinations| <= 90 ==> kept == destinations)
            && (|sources| + |destinations| > 90 ==> |sources| + |kept| == Max(90, |sources| + 1))
  {
  }

  function Origins(pairs: seq<Pair>): seq<LatLng> { seq(|pairs|, i requires 0 <= i < |pairs| => pairs[i].from) }

  function Targets(pairs: seq<Pair>): seq<LatLng> { seq(|pairs|, i requires 0 <= i < |pairs| => pairs[i].to) }

  /** The cache after the reply about `pairs`. */
  function Received(cache: Cache, pairs: seq<Pair>, reply: Reply): Cache {
    var sources := Uniq(Origins(pairs));
    CacheAfter(cache, sources, Truncated(sources, Uniq(Targets(pairs))), reply)
  }

  /** One table never holds more than 2025 entries, or one for each origin if there are more. */
  lemma ReplyBound(cache: Cache, pairs: seq<Pair>, reply: Reply)
    ensures |Received(cache, pairs, reply)| <= Max(|cache|, 10_000 + Max(2025, |KeysOf(Origins(pairs))|))
  {
    var sources, destinations := Uniq(Origins(pairs)), Uniq(Targets(pairs));
    var kept := Truncated(sources, destinations);
    UniqKeepsKeys(Origins(pairs));
    if reply.Table? {
      RowsCard(if |cache| > CACHE_MAX then map[] else cache, sources, kept, reply.durations, |sources|);
      if kept != [] {
        TableArea(|sources|, |kept|);
      }
    }
  }

  /** Replies in the order in which they came in, to requests made at any time. */
  function AfterReplies(replies: seq<(seq<Pair>, Reply)>): Cache {
    if replies == [] then map[]
    else
      var last := replies[|replies| - 1];
      Received(AfterReplies(replies[..|replies| - 1]), last.0, last.1)
  }

  ghost predicate FewOrigins(replies: seq<(seq<Pair>, Reply)>, n: nat) {
    forall i | 0 <= i < |replies| :: |KeysOf(Origins(replies[i].0))| <= n
  }

  lemma ReplyWithin(cache: Cache, pairs: seq<Pair>, reply: Reply, n: nat)
    requires |KeysOf(Origins(pairs))| <= n && |cache| <= 10_000 + Max(2025, n)
    ensures |Received(cache, pairs, reply)| <= 10_000 + Max(2025, n)
  {
    ReplyBound(cache, pairs, reply);
  }

  /**
   * In every run in which no request has more than `n` origins, the cache exceeds its
   * limit by `n` at most, or by 2025.
   */
  lemma {:induction false} CacheSizeInEveryRun(replies: seq<(seq<Pair>, Reply)>, n: nat)
    requires FewOrigins(replies, n)
    ensures |AfterReplies(replies)| <= 10_000 + Max(2025, n)
  {
    if replies != [] {
      var front, last := replies[..|replies| - 1], replies[|replies| - 1];
      CacheSizeInEveryRun(front, n);
      ReplyWithin(AfterReplies(front), last.0, last.1, n);
    }
  }

  // ── The service ─────────────────────────────────────────────────────────────

  function Missing(cache: Cache, pairs: seq<Pair>): seq<Pair> {
    if pairs == [] then []
    else if KeyOf(pairs[0].from, pairs[0].to) !in cache then [pairs[0]] + Missing(cache, pairs[1..])
    else Missing(cache, pairs[1..])
  }

  lemma {:induction false} MissingMembers(cache: Cache, pairs: seq<Pair>)
    ensures forall p :: p in Missing(cache, pairs) <==> p in pairs && KeyOf(p.from, p.to) !in cache
  {
    if pairs != [] {
      MissingMembers(cache, pairs[1..]);
    }
  }

  /** And they are asked about in the order of the call. */
  lemma {:induction false} MissingKeepsOrder(cache: Cache, pairs: seq<Pair>, more: seq<Pair>)
    ensures Missing(cache, pairs + more) == Missing(cache, pairs) + Missing(cache, more)
  {
    if pairs == [] {
      assert pairs + more == more;
    } else {
      MissingKeepsOrder(cache, pairs[1..], more);
      assert (pairs + more)[1..] == pairs[1..] + more;
    }
  }

  function Lookup(cache: Cache, p: Pair): Option<int> {
    var k := KeyOf(p.from, p.to);
    if k in cache then Some(cache[k]) else None
  }

  /** One table was asked for, and its reply is all that changed the cache. */
  ghost predicate Asked(cache: Cache, log: seq<Exchange>, pairs: seq<Pair>, reply: Reply, cache': Cache,
          log': seq<Exchange>) {
    var sources := Uniq(Origins(pairs));
    && cache' == Received(cache, pairs, reply)
    && log' == log + [Exchange(RequestFor(sources, Truncated(sources, Uniq(Targets(pairs)))), reply)]
  }

  method UniqPoints(points: seq<LatLng>) returns (seen: seq<LatLng>)
    ensures seen == Uniq(points)
  {
    seen := [];
    for n := 0 to |points|
      invariant seen == Uniq(points[..n])
    {
      assert points[..n + 1][..n] == points[..n];
      seen := Put(seen, points[n]);
    }
    assert points[..|points|] == points;
  }

  class RoutingService {
    var cache: Cache
    var fetches: nat
    var failures: nat
    const enabled: bool
    ghost var log: seq<Exchange>

    ghost predicate Valid()
      reads this
    {
      Faithful(cache, log) && failures <= fetches
    }

    constructor (enabled: bool)
      ensures Valid() && cache == map[] && log == [] && this.enabled == enabled
    {
      cache, fetches, failures, log := map[], 0, 0, [];
      this.enabled := enabled;
    }

    /** The distinct points to ask about, destinations cut off where the table would grow too large. */
    method Plan(pairs: seq<Pair>) returns (sources: seq<LatLng>, destinations: seq<LatLng>)
      requires pairs != []
      ensures sources == Uniq(Origins(pairs)) && destinations == Truncated(sources, Uniq(Targets(pairs)))
    {
      sources := UniqPoints(Origins(pairs));
      destinations := UniqPoints(Targets(pairs));
      UniqKeepsKeys(Targets(pairs));
      KeyListed(Targets(pairs), KeyOfPoint(Targets(pairs)[0]));
      if |sources| + |destinations| > TABLE_MAX {
        destinations := destinations[..Max(1, TABLE_MAX - |sources|)];
      }
    }

    /** The reply to one request, whenever it comes and whatever happened meanwhile. */
    method Receive(sources: seq<LatLng>, destinations: seq<LatLng>, reply: Reply)
      requires Valid()
      modifies this
      ensures Valid()
      ensures cache == CacheAfter(old(cache), sources, destinations, reply)
      ensures log == old(log) + [Exchange(RequestFor(sources, destinations), reply)]
      ensures fetches == old(fetches) + 1 && failures == old(failures) + if reply.Failed? then 1 else 0
    {
      ReplyKeepsFaith(cache, log, sources, destinations, reply);
      log := log + [Exchange(RequestFor(sources, destinations), reply)];
      fetches := fetches + 1;
      if reply.Failed? {
        failures := failures + 1;
        return;
      }
      if |cache| > CACHE_MAX {
        cache := map[];
      }
      Fill(sources, destinations, reply.durations);
    }

    method Fill(sources: seq<LatLng>, destinations: seq<LatLng>, durations: seq<seq<Option<real>>>)
      modifies this`cache
      ensures cache == FillRows(old(cache), sources, destinations, durations, |sources|)
    {
      for i := 0 to |sources|
        invariant cache == FillRows(old(cache), sources, destinations, durations, i)
      {
        ghost var row := cache;
        for j := 0 to |destinations|
          invariant cache == FillRow(row, sources, destinations, durations, i, j)
        {
          var seconds := Entry(durations, i, j);
          if seconds.Some? {
            cache := cache[KeyOf(sources[i], destinations[j]) := Minutes(seconds.value)];
          }
        }
      }
    }

    /** One value per pair, in the order of the pairs; every value is accurate. */
    method Read(pairs: seq<Pair>) returns (r: seq<Option<int>>)
      requires Valid()
      ensures |r| == |pairs| && forall i | 0 <= i < |r| :: r[i] == Lookup(cache, pairs[i])
      ensures forall i | 0 <= i < |r| && r[i].Some? :: Accurate(log, pairs[i], r[i].value)
    {
      r := [];
      for n := 0 to |pairs|
        invariant |r| == n && forall i | 0 <= i < n :: r[i] == Lookup(cache, pairs[i])
      {
        r := r + [Lookup(cache, pairs[n])];
      }
      forall i | 0 <= i < |r| && r[i].Some? ensures Accurate(log, pairs[i], r[i].value) {
        BackedIsAccurate(log, pairs[i], r[i].value);
      }
    }

    method FetchTable(pairs: seq<Pair>, reply: Reply)
      requires Valid() && pairs != []
      modifies this
      ensures Valid() && fetches == old(fetches) + 1 && failures == old(failures) + if reply.Failed? then 1 else 0
      ensures Asked(old(cache), old(log), pairs, reply, cache, log)
    {
      var sources, destinations := Plan(pairs);
      Receive(sources, destinations, reply);
    }

    /** A call that no other one overlaps; `reply` is what the service says if it is asked. */
    method DrivingMinutes(pairs: seq<Pair>, reply: Reply) returns (r: seq<Option<int>>)
      requires Valid()
      modifies this
      ensures Valid() && |r| == |pairs|
      ensures forall i | 0 <= i < |r| :: r[i] == if enabled then Lookup(cache, pairs[i]) else None
      ensures forall i | 0 <= i < |r| && r[i].Some? :: Accurate(log, pairs[i], r[i].value)
      ensures !enabled || Missing(old(cache), pairs) == [] ==>
                cache == old(cache) && log == old(log) && fetches == old(fetches) && failures == old(failures)
      ensures enabled && Missing(old(cache), pairs) != [] ==>
                && Asked(old(cache), old(log), Missing(old(cache), pairs), reply, cache, log)
                && fetches == old(fetches) + 1 && failures == old(failures) + if reply.Failed? then 1 else 0
    {
      if !enabled {
        return seq(|pairs|, i => None);
      }
      var missing := Missing(cache, pairs);
      if |missing| > 0 {
        FetchTable(missing, reply);
      }
      r := Read(pairs);
    }
  }

  // ── A whole table answers everything ────────────────────────────────────────

  ghost predicate FullTable(reply: Reply, rows: nat, columns: nat) {
    reply.Table? && forall i: nat, j: nat | i < rows && j < columns :: Entry(reply.durations, i, j).Some?
  }

  /** What a call that lacks `missing` asks about. */
  function Asking(missing: seq<Pair>): (seq<LatLng>, seq<LatLng>) {
    var sources := Uniq(Origins(missing));
    (sources, Truncated(sources, Uniq(Targets(missing))))
  }

  lemma ReceivedHasIff(cache: Cache, missing: seq<Pair>, reply: Reply, p: Pair)
    requires p in missing && |cache| <= 10_000 && KeyOf(p.from, p.to) !in cache
    requires FullTable(reply, |Asking(missing).0|, |Asking(missing).1|)
    ensures Lookup(Received(cache, missing, reply), p).Some? <==>
            exists d | d in Asking(missing).1 :: KeyOfPoint(d) == KeyOfPoint(p.to)
  {
    var (sources, kept) := Asking(missing);
    var k := KeyOf(p.from, p.to);
    HasValueIff(cache, sources, kept, reply, k);
    var i := FindKey(Origins(missing), Position(missing, p));
    if d :| d in kept && KeyOfPoint(d) == KeyOfPoint(p.to) {
      var j :| 0 <= j < |kept| && kept[j] == d;
      assert KeyOf(sources[i], kept[j]) == k && Entry(reply.durations, i, j).Some?;
    }
  }

  /**
   * When the service fills its table and nothing has to be cleared, a pair of the
   * call has a value afterwards exactly if it had one before or its destination is
   * among those that were kept; with at most 90 points that is every pair.
   */
  lemma FullTableAnswersIff(cache: Cache, pairs: seq<Pair>, reply: Reply, p: Pair)
    requires p in pairs && |cache| <= 10_000 && Missing(cache, pairs) != []
    requires var (sources, kept) := Asking(Missing(cache, pairs)); FullTable(reply, |sources|, |kept|)
    ensures var missing := Missing(cache, pairs);
            var has := Lookup(Received(cache, missing, reply), p).Some?;
            && (has <==> Lookup(cache, p).Some?
                         || exists d | d in Asking(missing).1 :: KeyOfPoint(d) == KeyOfPoint(p.to))
            && (|Uniq(Origins(missing))| + |Uniq(Targets(missing))| <= 90 ==> has)
  {
    var missing := Missing(cache, pairs);
    MissingMembers(cache, pairs);
    if p in missing {
      ReceivedHasIff(cache, missing, reply, p);
      var j := FindKey(Targets(missing), Position(missing, p));
      assert Uniq(Targets(missing))[j] in Uniq(Targets(missing));
      TruncatedMeans(Asking(missing).0, Uniq(Targets(missing)));
    } else {
      HasValueIff(cache, Asking(missing).0, Asking(missing).1, reply, KeyOf(p.from, p.to));
    }
  }

  ghost function Position(pairs: seq<Pair>, p: Pair): (i: nat)
    requires p in pairs
    ensures i < |pairs| && pairs[i] == p
  {
    var i :| 0 <= i < |pairs| && pairs[i] == p;
    i
  }

  lemma FindKey(points: seq<LatLng>, n: nat) returns (i: nat)
    requires n < |points|
    ensures i < |Uniq(points)| && KeyOfPoint(Uniq(points)[i]) == KeyOfPoint(points[n])
  {
    UniqKeepsKeys(points);
    KeyListed(points, KeyOfPoint(points[n]));
    KeyListed(Uniq(points), KeyOfPoint(points[n]));
    i :| 0 <= i < |Uniq(points)| && KeyOfPoint(Uniq(points)[i]) == KeyOfPoint(points[n]);
  }
}
