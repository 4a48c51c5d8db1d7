// One undisturbed erasure, and the nightly job that erases what is due in batches.
module ErasureService {
  import opened Common
  import opened ErasureProtocol
  import opened ErasureSafety

  // ── One erasure ─────────────────────────────────────────────────────────────

  datatype Result = ERASED | NOT_FOUND | FORBIDDEN | INCOMPLETE

  predicate Erasable(db: Db, id: AppId) { id in db.apps && !db.apps[id].erased && !db.apps[id].legalHold }

  function EraseResult(db: Db, id: AppId, verdicts: Doc -> Verdict): Result {
    if id !in db.apps || db.apps[id].erased then NOT_FOUND
    else if db.apps[id].legalHold then FORBIDDEN
    else if AllConfirmed(db, id, verdicts) then ERASED
    else INCOMPLETE
  }

  /** Flagged, then everything tried, then finalised if nothing is left. */
  function AfterErase(db: Db, id: AppId, verdicts: Doc -> Verdict): Db {
    if Erasable(db, id)
    then Ended(db.(apps := db.apps[id := Marked(db.apps[id])]), Eraser(id, DELETING, RowsOf(db, id), {}, {}), verdicts)
    else db
  }

  /** From the reading on, whether the application was flagged before or not. */
  lemma EraseFromReading(s: State, p: nat, id: AppId, verdicts: Doc -> Verdict) returns (run: seq<Step>)
    requires p !in s.erasers && Erasable(s.db, id)
    ensures OnlyBy(run, p)
    ensures Exec(Next(s, BeginErase(p, id)), run) == s.(db := AfterErase(s.db, id, verdicts))
  {
    var begun := Next(s, BeginErase(p, id));
    assert begun.erasers - {p} == s.erasers;
    if s.db.apps[id].requested {
      run := RunFromDeleting(begun, p, verdicts);
      assert s.db.apps[id := Marked(s.db.apps[id])] == s.db.apps;
    } else {
      run := RunFromMarking(begun, p, verdicts);
    }
  }

  /** The call is one of the runs of the interleaved protocol. */
  lemma EraseIsARun(s: State, p: nat, id: AppId, verdicts: Doc -> Verdict) returns (run: seq<Step>)
    requires p !in s.erasers
    ensures Exec(s, run) == s.(db := AfterErase(s.db, id, verdicts))
    ensures forall i | 0 <= i < |run| :: IsEraserStep(run[i]) || run[i].BeginErase?
  {
    run := [];
    if Erasable(s.db, id) {
      var rest := EraseFromReading(s, p, id, verdicts);
      ExecPrepend(s, BeginErase(p, id), rest);
      run := [BeginErase(p, id)] + rest;
    }
  }

  ghost predicate Sound(db: Db) {
    (forall id | id in db.apps :: AppOk(db, id)) && (forall d | d in db.rows :: d.app in db.apps)
  }

  lemma EraseKeepsSound(db: Db, id: AppId, verdicts: Doc -> Verdict)
    requires Sound(db)
    ensures Sound(AfterErase(db, id, verdicts))
  {
    var s := State(db, db.apps.Keys + (set d | d in db.objects :: d.app), map[], map[]);
    var run := EraseIsARun(s, 0, id, verdicts);
    assert Inv(s);
    RunKeeps(s, run);
  }

  lemma AfterEraseIs(db: Db, id: AppId, verdicts: Doc -> Verdict)
    requires Erasable(db, id)
    ensures var app, docs := Marked(db.apps[id]), RowsOf(db, id);
            AfterErase(db, id, verdicts)
            == Db(db.apps[id := if AllConfirmed(db, id, verdicts) then Finalised(app, id) else app],
                  db.rows - Confirmed(docs, verdicts), db.objects - Removed(docs, verdicts))
  {
  }

  predicate AllConfirmed(db: Db, id: AppId, verdicts: Doc -> Verdict) {
    Confirmed(RowsOf(db, id), verdicts) == RowsOf(db, id)
  }

  /** An attempt takes exactly the confirmed documents off the record, and touches no other record. */
  lemma AttemptProgress(db: Db, id: AppId, verdicts: Doc -> Verdict)
    requires Erasable(db, id)
    ensures var db' := AfterErase(db, id, verdicts);
            && RowsOf(db', id) == RowsOf(db, id) - Confirmed(RowsOf(db, id), verdicts)
            && |RowsOf(db', id)| == |RowsOf(db, id)| - |Confirmed(RowsOf(db, id), verdicts)|
            && (forall other | other != id :: RowsOf(db', other) == RowsOf(db, other))
            && (forall other | other in db.apps && other != id ::
                  other in db'.apps && db'.apps[other] == db.apps[other])
  {
  }

  // ── What is due ─────────────────────────────────────────────────────────────

  const BATCH := 500

  predicate IsDue(app: App, now: int) {
    !app.erased && !app.legalHold && ((app.retentionUntil.Some? && app.retentionUntil.value <= now) || app.requested)
  }

  function Due(db: Db, now: int): set<AppId> { set id | id in db.apps && IsDue(db.apps[id], now) }

  function Ids(ids: seq<AppId>): set<AppId> { set id | id in ids }

  /** What `take: BATCH` may return: as many of the due ones as fit, in any order. */
  ghost predicate Selection(db: Db, now: int, ids: seq<AppId>) {
    Distinct(ids) && (forall id | id in ids :: id in Due(db, now)) && |ids| == Min(BATCH, |Due(db, now)|)
  }

  /** A due record stops being due exactly if every deletion was confirmed. */
  lemma DueAfterErase(db: Db, id: AppId, verdicts: Doc -> Verdict, now: int)
    requires id in Due(db, now)
    ensures Due(AfterErase(db, id, verdicts), now)
            == if AllConfirmed(db, id, verdicts) then Due(db, now) - {id} else Due(db, now)
  {
  }

  // ── One nightly run ─────────────────────────────────────────────────────────

  function EraseAll(db: Db, ids: seq<AppId>, verdicts: Doc -> Verdict): Db {
    if ids == [] then db else AfterErase(EraseAll(db, ids[..|ids| - 1], verdicts), ids[|ids| - 1], verdicts)
  }

  function Cleared(db: Db, ids: seq<AppId>, verdicts: Doc -> Verdict): set<AppId> {
    set id | id in ids && AllConfirmed(db, id, verdicts)
  }

  lemma ClearedAppend(db: Db, ids: seq<AppId>, id: AppId, verdicts: Doc -> Verdict)
    ensures Cleared(db, ids + [id], verdicts)
            == Cleared(db, ids, verdicts) + if AllConfirmed(db, id, verdicts) then {id} else {}
  {
  }

  lemma OthersKeepRows(db: Db, id: AppId, verdicts: Doc -> Verdict, other: AppId)
    requires other != id
    ensures RowsOf(AfterErase(db, id, verdicts), other) == RowsOf(db, other)
  {
  }

  lemma {:induction false} OutsideKeepsRows(db: Db, ids: seq<AppId>, verdicts: Doc -> Verdict, id: AppId)
    requires id !in ids
    ensures RowsOf(EraseAll(db, ids, verdicts), id) == RowsOf(db, id)
  {
    if ids != [] {
      var n := |ids| - 1;
      OutsideKeepsRows(db, ids[..n], verdicts, id);
      OthersKeepRows(EraseAll(db, ids[..n], verdicts), ids[n], verdicts, id);
    }
  }

  /** A run makes exactly those selected records no longer due whose deletions are all confirmed. */
  lemma {:induction false} RunClears(db: Db, ids: seq<AppId>, verdicts: Doc -> Verdict, now: int)
    requires Distinct(ids) && forall id | id in ids :: id in Due(db, now)
    ensures Due(EraseAll(db, ids, verdicts), now) == Due(db, now) - Cleared(db, ids, verdicts)
  {
    if ids != [] {
      var n := |ids| - 1;
      var front, last := ids[..n], ids[n];
      assert ids == front + [last] && last !in front;
      RunClears(db, front, verdicts, now);
      ClearedAppend(db, front, last, verdicts);
      OutsideKeepsRows(db, front, verdicts, last);
      assert last in Due(db, now) && last !in Cleared(db, front, verdicts);
      DueAfterErase(EraseAll(db, front, verdicts), last, verdicts, now);
    }
  }

  /** A run takes exactly the confirmed documents off each selected record, and none off any other. */
  lemma {:induction false} RunRows(db: Db, ids: seq<AppId>, verdicts: Doc -> Verdict, now: int, id: AppId)
    requires Distinct(ids) && forall id | id in ids :: id in Due(db, now)
    ensures RowsOf(EraseAll(db, ids, verdicts), id)
            == if id in ids then RowsOf(db, id) - Confirmed(RowsOf(db, id), verdicts) else RowsOf(db, id)
  {
    if id !in ids {
      OutsideKeepsRows(db, ids, verdicts, id);
    } else {
      var n := |ids| - 1;
      var front, last := ids[..n], ids[n];
      assert ids == front + [last];
      RunClears(db, front, verdicts, now);
      if id == last {
        OutsideKeepsRows(db, front, verdicts, id);
        assert id !in Cleared(db, front, verdicts);
        assert id in Due(EraseAll(db, front, verdicts), now);
        AttemptProgress(EraseAll(db, front, verdicts), id, verdicts);
      } else {
        RunRows(db, front, verdicts, now, id);
        OthersKeepRows(EraseAll(db, front, verdicts), last, verdicts, id);
      }
    }
  }

  lemma NextInBatch(db: Db, ids: seq<AppId>, i: nat, verdicts: Doc -> Verdict, now: int)
    requires Distinct(ids) && i < |ids| && forall id | id in ids :: id in Due(db, now)
    ensures var before := EraseAll(db, ids[..i], verdicts);
            && EraseAll(db, ids[..i + 1], verdicts) == AfterErase(before, ids[i], verdicts)
            && |Cleared(db, ids[..i + 1], verdicts)|
               == |Cleared(db, ids[..i], verdicts)| + if EraseResult(before, ids[i], verdicts) == ERASED then 1 else 0
  {
    var front, last := ids[..i], ids[i];
    assert ids[..i + 1] == front + [last] && (front + [last])[..i] == front && last !in front && last in ids;
    RunClears(db, front, verdicts, now);
    ClearedAppend(db, front, last, verdicts);
    OutsideKeepsRows(db, front, verdicts, last);
    assert last in Due(EraseAll(db, front, verdicts), now);
    assert last !in Cleared(db, front, verdicts);
  }

  // ── The service ─────────────────────────────────────────────────────────────

  class ErasureService {
    var apps: map<AppId, App>
    var rows: set<Doc>
    var objects: set<Doc>

    function Database(): Db
      reads this
    {
      Db(apps, rows, objects)
    }

    ghost predicate Valid()
      reads this
    {
      Sound(Database())
    }

    constructor ()
      ensures Valid() && Database() == INIT.db
    {
      apps, rows, objects := map[], {}, {};
    }

    /** The documents of a record, in whatever order the database lists them. */
    method Documents(id: AppId) returns (docs: seq<Doc>)
      ensures (forall d :: d in docs <==> d in RowsOf(Database(), id))
      ensures forall i, j | 0 <= i < j < |docs| :: docs[i] != docs[j]
    {
      docs := [];
      var rest := RowsOf(Database(), id);
      while rest != {}
        invariant forall d :: d in RowsOf(Database(), id) <==> d in docs || d in rest
        invariant forall d | d in docs :: d !in rest
        invariant forall i, j | 0 <= i < j < |docs| :: docs[i] != docs[j]
        decreases |rest|
      {
        var d :| d in rest;
        docs, rest := docs + [d], rest - {d};
      }
    }

    /** Deletes the objects one by one; `failures` counts those that are not confirmed. */
    method DeleteObjects(docs: seq<Doc>, verdicts: Doc -> Verdict) returns (deleted: seq<Doc>, failures: nat)
      modifies this`objects
      ensures objects == old(objects) - (set d | d in docs && verdicts(d) != KEPT)
      ensures forall d :: d in deleted <==> d in docs && verdicts(d) == CONFIRMED
      ensures failures == 0 <==> forall d | d in docs :: verdicts(d) == CONFIRMED
    {
      deleted, failures := [], 0;
      for i := 0 to |docs|
        invariant objects == old(objects) - (set d | d in docs[..i] && verdicts(d) != KEPT)
        invariant forall d :: d in deleted <==> d in docs[..i] && verdicts(d) == CONFIRMED
        invariant failures == 0 <==> forall d | d in docs[..i] :: verdicts(d) == CONFIRMED
      {
        var d := docs[i];
        assert docs[..i + 1] == docs[..i] + [d];
        objects := AfterDelete(objects, d, verdicts(d));
        if verdicts(d) == CONFIRMED {
          deleted := deleted + [d];
        } else {
          failures := failures + 1;
        }
      }
      assert docs[..|docs|] == docs;
    }

    /** Objects first, then the rows of those confirmed gone. */
    method DeleteDocuments(id: AppId, verdicts: Doc -> Verdict) returns (failures: nat)
      modifies this`objects, this`rows
      ensures objects == old(objects) - Removed(RowsOf(old(Database()), id), verdicts)
      ensures rows == old(rows) - Confirmed(RowsOf(old(Database()), id), verdicts)
      ensures failures == 0 <==> AllConfirmed(old(Database()), id, verdicts)
    {
      ghost var docs := RowsOf(Database(), id);
      var documents := Documents(id);
      var deleted;
      deleted, failures := DeleteObjects(documents, verdicts);
      assert (set d | d in documents && verdicts(d) != KEPT) == Removed(docs, verdicts);
      assert (set d | d in deleted) == Confirmed(docs, verdicts);
      if |deleted| > 0 {
        rows := rows - set d | d in deleted;
      }
    }

    method Erase(id: AppId, verdicts: Doc -> Verdict) returns (r: Result)
      requires Valid()
      modifies this
      ensures Valid()
      ensures Database() == AfterErase(old(Database()), id, verdicts)
      ensures r == EraseResult(old(Database()), id, verdicts)
      ensures r == NOT_FOUND <==> id in old(apps) ==> old(apps)[id].erased
      ensures r == FORBIDDEN <==> id in old(apps) && !old(apps)[id].erased && old(apps)[id].legalHold
      ensures r == ERASED ==> id in apps && apps[id].erased
      ensures r == INCOMPLETE ==> id in apps && !apps[id].erased && apps[id].requested
    {
      EraseKeepsSound(Database(), id, verdicts);
      if id !in apps || apps[id].erased {
        return NOT_FOUND;
      }
      if apps[id].legalHold {
        return FORBIDDEN;
      }
      AfterEraseIs(Database(), id, verdicts);
      if !apps[id].requested {
        apps := apps[id := Marked(apps[id])];
      }
      assert apps == old(apps)[id := Marked(old(apps)[id])];
      var failures := DeleteDocuments(id, verdicts);
      if failures > 0 {
        return INCOMPLETE;
      }
      apps := apps[id := Finalised(apps[id], id)];
      return ERASED;
    }

    method SelectDue(now: int) returns (due: seq<AppId>)
      ensures Selection(Database(), now, due)
    {
      due := [];
      var rest := Due(Database(), now);
      while |due| < BATCH && rest != {}
        invariant |due| <= BATCH && |due| + |rest| == |Due(Database(), now)|
        invariant rest <= Due(Database(), now)
        invariant forall id | id in due :: id in Due(Database(), now) && id !in rest
        invariant Distinct(due)
        decreases |rest|
      {
        var id :| id in rest;
        due, rest := due + [id], rest - {id};
      }
    }

    /** Tries every selected record once; `erased` counts those that were finalised. */
    method EraseExpiredApplications(now: int, verdicts: Doc -> Verdict) returns (erased: nat, due: seq<AppId>)
      requires Valid()
      modifies this
      ensures Valid()
      ensures Selection(old(Database()), now, due)
      ensures Database() == EraseAll(old(Database()), due, verdicts)
      ensures erased == |Cleared(old(Database()), due, verdicts)|
    {
      due := SelectDue(now);
      erased := 0;
      for i := 0 to |due|
        invariant Valid()
        invariant Database() == EraseAll(old(Database()), due[..i], verdicts)
        invariant erased == |Cleared(old(Database()), due[..i], verdicts)|
      {
        NextInBatch(old(Database()), due, i, verdicts, now);
        var r := Erase(due[i], verdicts);
        if r == ERASED {
          erased := erased + 1;
        }
      }
      assert due[..|due|] == due;
    }
  }
}
