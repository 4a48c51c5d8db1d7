// What is due, in terms of the stored record: what a night erases, what it leaves
// alone, and what it comes back for.
module ErasureDue {
  import opened Common
  import opened ErasureProtocol
  import opened ErasureSafety
  import opened ErasureService
  import opened ErasureBacklog

  /** Not erased and not held, and either its retention has run out or an erasure has begun. */
  predicate MustGo(app: App, now: int) {
    && !app.erased && !app.legalHold
    && (app.requested || (app.retentionUntil.Some? && app.retentionUntil.value <= now))
  }

  lemma OthersStay(db: Db, id: AppId, verdicts: Doc -> Verdict, other: AppId)
    requires other != id && other in db.apps
    ensures SameRecord(db, AfterErase(db, id, verdicts), other)
  {
  }

  lemma {:induction false} OutsideStays(db: Db, ids: seq<AppId>, verdicts: Doc -> Verdict, id: AppId)
    requires id !in ids && id in db.apps
    ensures SameRecord(db, EraseAll(db, ids, verdicts), id)
  {
    if ids != [] {
      var n := |ids| - 1;
      OutsideStays(db, ids[..n], verdicts, id);
      OthersStay(EraseAll(db, ids[..n], verdicts), ids[n], verdicts, id);
    }
  }

  /**
   * A record that is held or erased, or whose retention still runs or is unlimited
   * and that is not flagged, is left as it is, whatever the night selects.
   */
  lemma NightLeavesTheRest(db: Db, now: int, ids: seq<AppId>, verdicts: Doc -> Verdict, id: AppId)
    requires Selection(db, now, ids) && id in db.apps && !MustGo(db.apps[id], now)
    ensures SameRecord(db, EraseAll(db, ids, verdicts), id)
  {
    OutsideStays(db, ids, verdicts, id);
  }

  // ── A night that reaches everything ─────────────────────────────────────────

  lemma {:induction false} AllKeepsSound(db: Db, ids: seq<AppId>, verdicts: Doc -> Verdict)
    requires Sound(db)
    ensures Sound(EraseAll(db, ids, verdicts))
  {
    if ids != [] {
      var n := |ids| - 1;
      AllKeepsSound(db, ids[..n], verdicts);
      EraseKeepsSound(EraseAll(db, ids[..n], verdicts), ids[n], verdicts);
    }
  }

  lemma NothingKept(docs: set<Doc>, verdicts: Doc -> Verdict)
    requires forall d | d in docs :: verdicts(d) == CONFIRMED
    ensures Confirmed(docs, verdicts) == docs
  {
  }

  /** A selected record whose deletions are all confirmed is finalised. */
  lemma {:induction false} SelectedIsErased(db: Db, ids: seq<AppId>, verdicts: Doc -> Verdict, now: int, id: AppId)
    requires Distinct(ids) && id in ids && AllConfirmed(db, id, verdicts)
    requires forall id | id in ids :: id in Due(db, now)
    ensures var db' := EraseAll(db, ids, verdicts); id in db'.apps && db'.apps[id].erased
  {
    var n := |ids| - 1;
    var front, last := ids[..n], ids[n];
    var before := EraseAll(db, front, verdicts);
    assert ids == front + [last] && last !in front;
    if id == last {
      OutsideStays(db, front, verdicts, id);
      AfterEraseIs(before, id, verdicts);
    } else {
      SelectedIsErased(db, front, verdicts, now, id);
      OthersStay(before, last, verdicts, id);
    }
  }

  /** If no more are due than are selected, all of them are. */
  lemma AllSelected(db: Db, now: int, ids: seq<AppId>, id: AppId)
    requires Selection(db, now, ids) && |Due(db, now)| <= 500 && id in Due(db, now)
    ensures id in ids
  {
    DistinctCard(ids);
    if id !in ids {
      assert Ids(ids) <= Due(db, now) - {id};
      SubsetCard(Ids(ids), Due(db, now) - {id});
    }
  }

  lemma DueIs(db: Db, now: int)
    ensures Due(db, now) == set id | id in db.apps && MustGo(db.apps[id], now)
  {
  }

  /**
   * If at most 500 records must go and every deletion is confirmed, none is left
   * after the night: each is finalised, without a row, a file or an identifier.
   */
  lemma NightErasesAll(db: Db, now: int, ids: seq<AppId>, verdicts: Doc -> Verdict, id: AppId)
    requires Sound(db) && Selection(db, now, ids)
    requires |set other | other in db.apps && MustGo(db.apps[other], now)| <= 500
    requires id in db.apps && MustGo(db.apps[id], now)
    requires forall d | d in db.rows && d.app == id :: verdicts(d) == CONFIRMED
    ensures var db' := EraseAll(db, ids, verdicts);
            && id in db'.apps && !MustGo(db'.apps[id], now) && db'.apps[id].erased
            && db'.apps[id].person == Anonymous(id) && RowsOf(db', id) == {} && ObjectsOf(db', id) == {}
  {
    DueIs(db, now);
    AllSelected(db, now, ids, id);
    NothingKept(RowsOf(db, id), verdicts);
    SelectedIsErased(db, ids, verdicts, now, id);
    AllKeepsSound(db, ids, verdicts);
    assert AppOk(EraseAll(db, ids, verdicts), id);
  }

  // ── What an incomplete attempt leads to ─────────────────────────────────────

  /** Some night at `now` may take it. */
  ghost predicate Selectable(db: Db, now: int, id: AppId) { exists ids :: Selection(db, now, ids) && id in ids }

  lemma DueIsSelectable(db: Db, now: int, id: AppId)
    requires id in db.apps && MustGo(db.apps[id], now)
    ensures Selectable(db, now, id)
  {
    DueIs(db, now);
    var due := Due(db, now);
    var part := PartOf(due - {id}, Min(499, |due| - 1));
    var rest := SeqOf(part);
    var ids := rest + [id];
    assert forall x | x in rest :: x in Ids(rest);
    assert Selection(db, now, ids) && id in ids;
  }

  lemma ActKeepsFlag(db: Db, q: Eraser, step: Step, id: AppId)
    requires id in db.apps && db.apps[id].requested
    ensures id in Act(db, q, step).db.apps && Act(db, q, step).db.apps[id].requested
  {
  }

  lemma NextKeepsFlag(s: State, step: Step, id: AppId)
    requires Inv(s) && id in s.db.apps && s.db.apps[id].requested
    ensures id in Next(s, step).db.apps && Next(s, step).db.apps[id].requested
  {
    if IsEraserStep(step) && step.p in s.erasers {
      ActKeepsFlag(s.db, s.erasers[step.p], step, id);
    } else if step.Commit? && step.id in s.creators {
      assert CreatorOk(s, step.id, s.creators[step.id]);
    }
  }

  lemma {:induction false} FlagStays(s: State, run: seq<Step>, id: AppId)
    requires Inv(s) && id in s.db.apps && s.db.apps[id].requested
    ensures id in Exec(s, run).db.apps && Exec(s, run).db.apps[id].requested
  {
    if run != [] {
      var n := |run| - 1;
      FlagStays(s, run[..n], id);
      RunKeeps(s, run[..n]);
      NextKeepsFlag(Exec(s, run[..n]), run[n], id);
    }
  }

  /**
   * Whatever happens after an attempt that ended incomplete: as long as the record
   * is neither erased nor held, every later night may select it.
   */
  lemma IncompleteComesBack(s: State, p: nat, id: AppId, verdicts: Doc -> Verdict, run: seq<Step>, now: int)
    requires Inv(s) && p !in s.erasers && EraseResult(s.db, id, verdicts) == INCOMPLETE
    ensures var db := Exec(s.(db := AfterErase(s.db, id, verdicts)), run).db;
            && id in db.apps
            && (!db.apps[id].erased && !db.apps[id].legalHold ==> Selectable(db, now, id))
  {
    var attempted := s.(db := AfterErase(s.db, id, verdicts));
    var attempt := EraseIsARun(s, p, id, verdicts);
    RunKeeps(s, attempt);
    AfterEraseIs(s.db, id, verdicts);
    FlagStays(attempted, run, id);
    var db := Exec(attempted, run).db;
    if !db.apps[id].erased && !db.apps[id].legalHold {
      DueIsSelectable(db, now, id);
    }
  }

  // ── From storing to the retention date ──────────────────────────────────────

  lemma ActKeepsRetention(db: Db, q: Eraser, step: Step, id: AppId)
    requires id in db.apps
    ensures id in Act(db, q, step).db.apps && Act(db, q, step).db.apps[id].retentionUntil == db.apps[id].retentionUntil
  {
  }

  lemma NextKeepsRetention(s: State, step: Step, id: AppId)
    requires Inv(s) && id in s.db.apps
    ensures id in Next(s, step).db.apps && Next(s, step).db.apps[id].retentionUntil == s.db.apps[id].retentionUntil
  {
    if IsEraserStep(step) && step.p in s.erasers {
      ActKeepsRetention(s.db, s.erasers[step.p], step, id);
    } else if step.Commit? && step.id in s.creators {
      assert CreatorOk(s, step.id, s.creators[step.id]);
    }
  }

  lemma {:induction false} RetentionStays(s: State, run: seq<Step>, id: AppId)
    requires Inv(s) && id in s.db.apps
    ensures id in Exec(s, run).db.apps
    ensures Exec(s, run).db.apps[id].retentionUntil == s.db.apps[id].retentionUntil
  {
    if run != [] {
      var n := |run| - 1;
      RetentionStays(s, run[..n], id);
      RunKeeps(s, run[..n]);
      NextKeepsRetention(Exec(s, run[..n]), run[n], id);
    }
  }

  /**
   * Whatever runs after an application was stored: a night may select it exactly
   * while it is neither erased nor held, from the date on that was stored with it,
   * or before that if an erasure of it has begun.
   */
  lemma StoredComesDue(s: State, id: AppId, person: Person, until: int, ok: bool, run: seq<Step>, now: int)
    requires Inv(s) && id in s.creators && !s.creators[id].cleaning
    ensures var db := Exec(Next(s, Commit(id, person, until, true, ok)), run).db;
            && id in db.apps
            && (Selectable(db, now, id) <==>
                  !db.apps[id].erased && !db.apps[id].legalHold && (until <= now || db.apps[id].requested))
  {
    var stored := Next(s, Commit(id, person, until, true, ok));
    NextKeeps(s, Commit(id, person, until, true, ok));
    assert id in stored.db.apps && stored.db.apps[id].retentionUntil == Some(until);
    RetentionStays(stored, run, id);
    var db := Exec(stored, run).db;
    DueIs(db, now);
    if MustGo(db.apps[id], now) {
      DueIsSelectable(db, now, id);
    }
  }
}
