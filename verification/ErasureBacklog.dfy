// Nights in a row: how fast the batches clear what is due, and when records whose
// files keep failing can keep the others waiting.
module ErasureBacklog {
  import opened Common
  import opened ErasureProtocol
  import opened ErasureSafety
  import opened ErasureService

  /** The database after some nights; `batches[i]` is what night `i` selects. */
  function AfterRuns(db: Db, batches: seq<seq<AppId>>, verdicts: Doc -> Verdict): Db {
    if batches == [] then db
    else EraseAll(AfterRuns(db, batches[..|batches| - 1], verdicts), batches[|batches| - 1], verdicts)
  }

  ghost predicate Nightly(db: Db, batches: seq<seq<AppId>>, times: seq<int>, verdicts: Doc -> Verdict) {
    && |times| == |batches|
    && forall i | 0 <= i < |batches| :: Selection(AfterRuns(db, batches[..i], verdicts), times[i], batches[i])
  }

  /** While the nights last, no further record becomes due. */
  ghost predicate NoneNew(db: Db, times: seq<int>, now: int) {
    forall i | 0 <= i < |times| :: Due(db, times[i]) == Due(db, now)
  }

  /** Due records with a document whose deletion fails. */
  function Stuck(db: Db, now: int, verdicts: Doc -> Verdict): set<AppId> {
    set id | id in Due(db, now) && !AllConfirmed(db, id, verdicts)
  }

  /** The due records that would be erased if they were selected. */
  function Waiting(db: Db, now: int, verdicts: Doc -> Verdict): set<AppId> { Due(db, now) - Stuck(db, now, verdicts) }

  // ── One night ───────────────────────────────────────────────────────────────

  lemma {:induction false} DistinctCard(ids: seq<AppId>)
    requires Distinct(ids)
    ensures |Ids(ids)| == |ids|
  {
    if ids != [] {
      var n := |ids| - 1;
      DistinctCard(ids[..n]);
      assert ids == ids[..n] + [ids[n]];
      assert Ids(ids) == Ids(ids[..n]) + {ids[n]};
    }
  }

  lemma FailingStays(docs: set<Doc>, verdicts: Doc -> Verdict)
    requires Confirmed(docs, verdicts) != docs
    ensures var left := docs - Confirmed(docs, verdicts); Confirmed(left, verdicts) != left
  {
    var d :| d in docs && d !in Confirmed(docs, verdicts);
    assert d in docs - Confirmed(docs, verdicts);
  }

  lemma StillDueAlike(db: Db, ids: seq<AppId>, now: int, verdicts: Doc -> Verdict, id: AppId)
    requires Selection(db, now, ids) && id in Due(EraseAll(db, ids, verdicts), now)
    ensures id in Due(db, now)
    ensures AllConfirmed(EraseAll(db, ids, verdicts), id, verdicts) <==> AllConfirmed(db, id, verdicts)
  {
    RunClears(db, ids, verdicts, now);
    RunRows(db, ids, verdicts, now, id);
    if id in ids {
      assert id !in Cleared(db, ids, verdicts);
      FailingStays(RowsOf(db, id), verdicts);
    }
  }

  /** A document that fails stays, so a record that is stuck stays stuck. */
  lemma StuckStays(db: Db, ids: seq<AppId>, now: int, verdicts: Doc -> Verdict)
    requires Selection(db, now, ids)
    ensures var db' := EraseAll(db, ids, verdicts);
            && Stuck(db', now, verdicts) == Stuck(db, now, verdicts)
            && Waiting(db', now, verdicts) == Waiting(db, now, verdicts) - Ids(ids)
  {
    var due, due' := Due(db, now), Due(EraseAll(db, ids, verdicts), now);
    RunClears(db, ids, verdicts, now);
    forall id | id in due'
      ensures AllConfirmed(EraseAll(db, ids, verdicts), id, verdicts) <==> AllConfirmed(db, id, verdicts)
    {
      StillDueAlike(db, ids, now, verdicts, id);
    }
    assert forall id :: id in Cleared(db, ids, verdicts) <==> id in ids && id !in Stuck(db, now, verdicts);
    assert forall id :: id in due' <==> id in due && (id !in ids || id in Stuck(db, now, verdicts));
  }

  lemma {:induction false} CardMinus(all: set<AppId>, part: set<AppId>)
    ensures |all - part| == |all| - |all * part|
  {
    assert all - part == all - all * part;
  }

  /** A night reaches at least as many waiting records as the stuck ones leave room for. */
  lemma NightReaches(db: Db, ids: seq<AppId>, now: int, verdicts: Doc -> Verdict)
    requires Selection(db, now, ids)
    ensures var db' := EraseAll(db, ids, verdicts);
            |Waiting(db', now, verdicts)| <= Max(0, |Waiting(db, now, verdicts)| - Room(db, now, verdicts))
  {
    var stuck, waiting, chosen := Stuck(db, now, verdicts), Waiting(db, now, verdicts), Ids(ids);
    StuckStays(db, ids, now, verdicts);
    DistinctCard(ids);
    CardMinus(waiting, chosen);
    assert waiting * chosen == chosen - stuck;
    CardMinus(chosen, stuck);
    SubsetCard(chosen * stuck, stuck);
    CardMinus(Due(db, now), stuck);
    assert Due(db, now) * stuck == stuck;
  }

  /** The places in a batch that stuck records cannot take. */
  function RoomBeside(stuck: set<AppId>): nat { Max(0, BATCH - |stuck|) }

  function Room(db: Db, now: int, verdicts: Doc -> Verdict): nat { RoomBeside(Stuck(db, now, verdicts)) }

  /** These are stuck, and at most so many others wait. */
  ghost predicate AtMost(db: Db, now: int, verdicts: Doc -> Verdict, stuck: set<AppId>, waiting: nat) {
    Stuck(db, now, verdicts) == stuck && |Waiting(db, now, verdicts)| <= waiting
  }

  lemma NightReachesOf(db: Db, ids: seq<AppId>, now: int, verdicts: Doc -> Verdict, stuck: set<AppId>, waiting: nat)
    requires Selection(db, now, ids) && AtMost(db, now, verdicts, stuck, waiting)
    ensures AtMost(EraseAll(db, ids, verdicts), now, verdicts, stuck, Max(0, waiting - RoomBeside(stuck)))
  {
    StuckStays(db, ids, now, verdicts);
    NightReaches(db, ids, now, verdicts);
  }

  lemma NightAgrees(db: Db, ids: seq<AppId>, now: int, other: int, verdicts: Doc -> Verdict)
    requires Selection(db, now, ids) && Due(db, other) == Due(db, now)
    ensures Due(EraseAll(db, ids, verdicts), other) == Due(EraseAll(db, ids, verdicts), now)
  {
    RunClears(db, ids, verdicts, now);
    RunClears(db, ids, verdicts, other);
  }

  // ── Night after night ───────────────────────────────────────────────────────

  lemma NightlyFront(db: Db, batches: seq<seq<AppId>>, times: seq<int>, verdicts: Doc -> Verdict)
    requires batches != [] && Nightly(db, batches, times, verdicts)
    ensures var n := |batches| - 1;
            && Nightly(db, batches[..n], times[..n], verdicts)
            && Selection(AfterRuns(db, batches[..n], verdicts), times[n], batches[n])
  {
    var n := |batches| - 1;
    forall i | 0 <= i < n
      ensures Selection(AfterRuns(db, batches[..n][..i], verdicts), times[..n][i], batches[..n][i])
    {
      assert batches[..n][..i] == batches[..i];
    }
  }

  /** Points in time that agree on what is due before the nights agree on it afterwards. */
  lemma {:induction false} NightsAgree(db: Db, batches: seq<seq<AppId>>, times: seq<int>, now: int, other: int,
                                       verdicts: Doc -> Verdict)
    requires Nightly(db, batches, times, verdicts) && NoneNew(db, times, now) && Due(db, other) == Due(db, now)
    ensures Due(AfterRuns(db, batches, verdicts), other) == Due(AfterRuns(db, batches, verdicts), now)
  {
    if batches != [] {
      var n := |batches| - 1;
      NightlyFront(db, batches, times, verdicts);
      assert Due(db, times[n]) == Due(db, now);
      NightsAgree(db, batches[..n], times[..n], now, other, verdicts);
      NightsAgree(db, batches[..n], times[..n], now, times[n], verdicts);
      NightAgrees(AfterRuns(db, batches[..n], verdicts), batches[n], now, other, verdicts);
    }
  }

  lemma LastNight(db: Db, batches: seq<seq<AppId>>, times: seq<int>, now: int, verdicts: Doc -> Verdict)
    requires batches != [] && Nightly(db, batches, times, verdicts) && NoneNew(db, times, now)
    ensures var n := |batches| - 1;
            && Nightly(db, batches[..n], times[..n], verdicts) && NoneNew(db, times[..n], now)
            && Selection(AfterRuns(db, batches[..n], verdicts), now, batches[n])
  {
    var n := |batches| - 1;
    NightlyFront(db, batches, times, verdicts);
    assert Due(db, times[n]) == Due(db, now);
    NightsAgree(db, batches[..n], times[..n], now, times[n], verdicts);
  }

  /** What is left of `start` when every night takes `room` of it. */
  function Left(start: nat, nights: nat, room: nat): nat {
    if nights == 0 then start else Max(0, Left(start, nights - 1, room) - room)
  }

  lemma {:induction false} LeftIs(start: nat, nights: nat, room: nat)
    ensures Left(start, nights, room) == Max(0, start - nights * room)
  {
    if nights > 0 {
      LeftIs(start, nights - 1, room);
      assert nights * room == (nights - 1) * room + room;
    }
  }

  /** Whatever is selected, the waiting records are reached at least at the rate the stuck ones leave. */
  lemma {:induction false} NightsReach(db: Db, batches: seq<seq<AppId>>, times: seq<int>, now: int,
                                       verdicts: Doc -> Verdict, stuck: set<AppId>, waiting: nat)
    requires Nightly(db, batches, times, verdicts) && NoneNew(db, times, now)
    requires AtMost(db, now, verdicts, stuck, waiting)
    ensures AtMost(AfterRuns(db, batches, verdicts), now, verdicts, stuck,
                   Left(waiting, |batches|, RoomBeside(stuck)))
  {
    if batches != [] {
      var n := |batches| - 1;
      LastNight(db, batches, times, now, verdicts);
      NightsReach(db, batches[..n], times[..n], now, verdicts, stuck, waiting);
      NightReachesOf(AfterRuns(db, batches[..n], verdicts), batches[n], now, verdicts, stuck,
                     Left(waiting, n, RoomBeside(stuck)));
    }
  }

  // ── The worst order ─────────────────────────────────────────────────────────

  lemma {:induction false} SeqOf(ids: set<AppId>) returns (list: seq<AppId>)
    ensures Distinct(list) && Ids(list) == ids && |list| == |ids|
    decreases |ids|
  {
    list := [];
    if ids != {} {
      var id :| id in ids;
      var rest := SeqOf(ids - {id});
      list := rest + [id];
      assert Ids(list) == Ids(rest) + {id};
      assert forall i | 0 <= i < |rest| :: rest[i] in Ids(rest);
    }
  }

  lemma {:induction false} PartOf(ids: set<AppId>, n: nat) returns (part: set<AppId>)
    requires n <= |ids|
    ensures part <= ids && |part| == n
    decreases |ids|
  {
    part := ids;
    if n < |ids| {
      var id :| id in ids;
      part := PartOf(ids - {id}, n);
    }
  }

  lemma StuckFirst(stuck: set<AppId>, waiting: set<AppId>) returns (ids: seq<AppId>)
    requires stuck !! waiting
    ensures Distinct(ids) && Ids(ids) <= stuck + waiting && |ids| == Min(BATCH, |stuck| + |waiting|)
    ensures |waiting - Ids(ids)| == Max(0, |waiting| - Max(0, BATCH - |stuck|))
  {
    var first := PartOf(stuck, Min(BATCH, |stuck|));
    var rest := PartOf(waiting, Min(Max(0, BATCH - |stuck|), |waiting|));
    assert |first + rest| == |first| + |rest|;
    ids := SeqOf(first + rest);
    assert waiting - Ids(ids) == waiting - rest;
  }

  lemma IsSelection(db: Db, now: int, ids: seq<AppId>)
    requires Distinct(ids) && Ids(ids) <= Due(db, now) && |ids| == Min(BATCH, |Due(db, now)|)
    ensures Selection(db, now, ids)
  {
    forall id | id in ids ensures id in Due(db, now) {
      assert id in Ids(ids);
    }
  }

  lemma SelectionLeaves(db: Db, ids: seq<AppId>, now: int, verdicts: Doc -> Verdict)
    requires Selection(db, now, ids)
    ensures Waiting(EraseAll(db, ids, verdicts), now, verdicts) == Waiting(db, now, verdicts) - Ids(ids)
  {
    StuckStays(db, ids, now, verdicts);
  }

  lemma StuckOrWaiting(db: Db, now: int, verdicts: Doc -> Verdict)
    ensures var (stuck, waiting) := (Stuck(db, now, verdicts), Waiting(db, now, verdicts));
            stuck !! waiting && stuck + waiting == Due(db, now) && |stuck| + |waiting| == |Due(db, now)|
  {
  }

  /** A night that takes the stuck records first reaches no more waiting ones than it must. */
  lemma WorstNight(db: Db, now: int, verdicts: Doc -> Verdict) returns (ids: seq<AppId>)
    ensures Selection(db, now, ids)
    ensures var db' := EraseAll(db, ids, verdicts);
            |Waiting(db', now, verdicts)| == Max(0, |Waiting(db, now, verdicts)| - Room(db, now, verdicts))
  {
    StuckOrWaiting(db, now, verdicts);
    ids := StuckFirst(Stuck(db, now, verdicts), Waiting(db, now, verdicts));
    IsSelection(db, now, ids);
    SelectionLeaves(db, ids, now, verdicts);
  }

  /** So many records wait, and so many places are free for them. */
  ghost predicate Stands(db: Db, now: int, verdicts: Doc -> Verdict, waiting: nat, room: nat) {
    |Waiting(db, now, verdicts)| == waiting && Room(db, now, verdicts) == room
  }

  lemma WorstNightStands(db: Db, now: int, verdicts: Doc -> Verdict, waiting: nat, room: nat) returns (ids: seq<AppId>)
    requires Stands(db, now, verdicts, waiting, room)
    ensures Selection(db, now, ids) && Stands(EraseAll(db, ids, verdicts), now, verdicts, Max(0, waiting - room), room)
  {
    ids := WorstNight(db, now, verdicts);
    StuckStays(db, ids, now, verdicts);
  }

  /** Such a night after any others. */
  lemma ThenWorst(db: Db, front: seq<seq<AppId>>, times: seq<int>, now: int, verdicts: Doc -> Verdict,
                  waiting: nat, room: nat)
    returns (batches: seq<seq<AppId>>)
    requires times != [] && NoneNew(db, times, now) && Nightly(db, front, times[..|times| - 1], verdicts)
    requires Stands(AfterRuns(db, front, verdicts), now, verdicts, waiting, room)
    ensures Nightly(db, batches, times, verdicts)
    ensures Stands(AfterRuns(db, batches, verdicts), now, verdicts, Max(0, waiting - room), room)
  {
    var n := |times| - 1;
    assert NoneNew(db, times[..n], now) && Due(db, times[n]) == Due(db, now);
    NightsAgree(db, front, times[..n], now, times[n], verdicts);
    var last := WorstNightStands(AfterRuns(db, front, verdicts), now, verdicts, waiting, room);
    batches := OneMoreNight(db, front, times, last, verdicts);
  }

  lemma {:induction false} WorstNights(db: Db, times: seq<int>, now: int, verdicts: Doc -> Verdict,
                                       waiting: nat, room: nat)
    returns (batches: seq<seq<AppId>>)
    requires NoneNew(db, times, now) && Stands(db, now, verdicts, waiting, room)
    ensures Nightly(db, batches, times, verdicts)
    ensures Stands(AfterRuns(db, batches, verdicts), now, verdicts, Left(waiting, |times|, room), room)
  {
    if times == [] {
      batches := [];
    } else {
      var n := |times| - 1;
      var front := WorstNights(db, times[..n], now, verdicts, waiting, room);
      batches := ThenWorst(db, front, times, now, verdicts, Left(waiting, n, room), room);
    }
  }

  lemma OneMoreNight(db: Db, front: seq<seq<AppId>>, times: seq<int>, last: seq<AppId>, verdicts: Doc -> Verdict)
    returns (batches: seq<seq<AppId>>)
    requires times != [] && Nightly(db, front, times[..|times| - 1], verdicts)
    requires Selection(AfterRuns(db, front, verdicts), times[|times| - 1], last)
    ensures Nightly(db, batches, times, verdicts)
    ensures AfterRuns(db, batches, verdicts) == EraseAll(AfterRuns(db, front, verdicts), last, verdicts)
  {
    var n := |times| - 1;
    batches := front + [last];
    assert batches[..n] == front;
    forall i | 0 <= i < |batches| ensures Selection(AfterRuns(db, batches[..i], verdicts), times[i], batches[i]) {
      if i < n {
        assert batches[..i] == front[..i];
        assert Selection(AfterRuns(db, front[..i], verdicts), times[..n][i], front[i]);
      }
    }
  }

  // ── When every other record is reached ──────────────────────────────────────

  /**
   * The database lists what is due in any order. With nothing new, every record
   * that does not fail itself is erased in the given nights, whatever order that
   * is, exactly when the places the stuck records leave are enough: never, if 500
   * or more are stuck and any other is due.
   */
  lemma AllReachedIff(db: Db, times: seq<int>, now: int, verdicts: Doc -> Verdict)
    requires NoneNew(db, times, now)
    ensures (forall batches | Nightly(db, batches, times, verdicts) ::
               Due(AfterRuns(db, batches, verdicts), now) == Stuck(db, now, verdicts))
            <==> |times| * Max(0, 500 - |Stuck(db, now, verdicts)|) >= |Waiting(db, now, verdicts)|
  {
    var left := Left(|Waiting(db, now, verdicts)|, |times|, Room(db, now, verdicts));
    LeftIs(|Waiting(db, now, verdicts)|, |times|, Room(db, now, verdicts));
    if left == 0 {
      forall batches | Nightly(db, batches, times, verdicts)
        ensures Due(AfterRuns(db, batches, verdicts), now) == Stuck(db, now, verdicts)
      {
        NightsReach(db, batches, times, now, verdicts, Stuck(db, now, verdicts), |Waiting(db, now, verdicts)|);
        NoneWaiting(AfterRuns(db, batches, verdicts), now, verdicts);
      }
    } else {
      var batches := WorstNights(db, times, now, verdicts, |Waiting(db, now, verdicts)|, Room(db, now, verdicts));
      NightsReach(db, batches, times, now, verdicts, Stuck(db, now, verdicts), |Waiting(db, now, verdicts)|);
      NoneWaiting(AfterRuns(db, batches, verdicts), now, verdicts);
    }
  }

  lemma NoneWaiting(db: Db, now: int, verdicts: Doc -> Verdict)
    ensures |Waiting(db, now, verdicts)| == 0 <==> Due(db, now) == Stuck(db, now, verdicts)
  {
    assert Due(db, now) == Stuck(db, now, verdicts) + Waiting(db, now, verdicts);
  }

  function NoFailure(): Doc -> Verdict { (d: Doc) => CONFIRMED }

  lemma NothingStuck(db: Db, now: int)
    ensures Stuck(db, now, NoFailure()) == {}
  {
    assert forall docs: set<Doc> :: Confirmed(docs, NoFailure()) == docs;
  }

  /** Without a failing deletion a night always takes off a whole batch. */
  lemma {:induction false} BacklogAfter(db: Db, batches: seq<seq<AppId>>, times: seq<int>, now: int)
    requires Nightly(db, batches, times, NoFailure()) && NoneNew(db, times, now)
    ensures |Due(AfterRuns(db, batches, NoFailure()), now)| == Max(0, |Due(db, now)| - 500 * |batches|)
  {
    if batches != [] {
      var n := |batches| - 1;
      LastNight(db, batches, times, now, NoFailure());
      BacklogAfter(db, batches[..n], times[..n], now);
      var before := AfterRuns(db, batches[..n], NoFailure());
      NothingStuck(before, now);
      StuckStays(before, batches[n], now, NoFailure());
      DistinctCard(batches[n]);
      CardMinus(Due(before, now), Ids(batches[n]));
      assert Due(before, now) * Ids(batches[n]) == Ids(batches[n]);
    }
  }

  /**
   * With nothing failing and nothing new, a backlog is gone exactly once 500 times the
   * number of nights reaches its size.
   */
  lemma BacklogGoneIff(db: Db, batches: seq<seq<AppId>>, times: seq<int>, now: int)
    requires Nightly(db, batches, times, NoFailure()) && NoneNew(db, times, now)
    ensures Due(AfterRuns(db, batches, NoFailure()), now) == {} <==> 500 * |batches| >= |Due(db, now)|
  {
    BacklogAfter(db, batches, times, now);
  }
}
