// What holds in every run of submissions and erasures: an application is only
// finalised once none of its files is left, no file of a stored application loses
// its row, and a legal hold is respected by every erasure that begins under it.
module ErasureSafety {
  import opened Common
  import opened ErasureProtocol

  // ── The invariant ───────────────────────────────────────────────────────────

  /** Nothing is left of an erased application: no row, no object, no identifier. */
  ghost predicate ErasedIsGone(db: Db, id: AppId)
    requires id in db.apps
  {
    db.apps[id].erased ==> RowsOf(db, id) == {} && ObjectsOf(db, id) == {} && db.apps[id].person == Anonymous(id)
  }

  /** Every surviving object still has its row. */
  ghost predicate ObjectsHaveRows(db: Db, id: AppId) { ObjectsOf(db, id) <= RowsOf(db, id) }

  /** An application that has lost a row stays flagged for the next attempt, and for good once it is erased. */
  ghost predicate LossIsFlagged(db: Db, id: AppId)
    requires id in db.apps
  {
    && RowsOf(db, id) <= db.apps[id].submitted
    && (RowsOf(db, id) != db.apps[id].submitted || db.apps[id].erased ==> db.apps[id].requested)
  }

  ghost predicate AppOk(db: Db, id: AppId)
    requires id in db.apps
  {
    ErasedIsGone(db, id) && ObjectsHaveRows(db, id) && LossIsFlagged(db, id)
  }

  ghost predicate EraserOk(db: Db, q: Eraser) {
    && q.app in db.apps
    && (forall d | d in q.pending + q.gone + q.failed :: d.app == q.app)
    && RowsOf(db, q.app) <= q.pending + q.gone + q.failed
    && q.gone !! db.objects
    && (q.phase != MARKING ==> db.apps[q.app].requested)
    && (q.phase == FINISHING ==> RowsOf(db, q.app) == {} && q.failed == {})
    && (q.phase == MARKING ==> q.gone == {} && q.failed == {})
  }

  ghost predicate CreatorOk(s: State, id: AppId, c: Creator) {
    && id in s.known
    && (forall d | d in c.uploaded :: d.app == id)
    && (!c.cleaning ==> id !in s.db.apps && ObjectsOf(s.db, id) <= c.uploaded)
  }

  ghost predicate Inv(s: State) {
    && (forall id | id in s.db.apps :: id in s.known && AppOk(s.db, id))
    && (forall d | d in s.db.rows :: d.app in s.db.apps)
    && (forall d | d in s.db.objects :: d.app in s.known)
    && (forall id | id in s.creators :: CreatorOk(s, id, s.creators[id]))
    && (forall p | p in s.erasers :: EraserOk(s.db, s.erasers[p]))
  }

  // ── Steps that only take away ───────────────────────────────────────────────

  /** Rows and objects only disappear, flags only go up, and no application comes or goes. */
  ghost predicate Shrinks(db: Db, db': Db) {
    && db'.apps.Keys == db.apps.Keys
    && db'.rows <= db.rows && db'.objects <= db.objects
    && (forall id | id in db.apps :: db.apps[id].requested ==> db'.apps[id].requested)
  }

  lemma ShrinkKeepsEraser(db: Db, db': Db, q: Eraser)
    requires EraserOk(db, q) && Shrinks(db, db')
    ensures EraserOk(db', q)
  {
  }

  lemma ShrinkKeepsCreator(s: State, s': State, id: AppId, c: Creator)
    requires CreatorOk(s, id, c) && Shrinks(s.db, s'.db) && s'.known == s.known
    ensures CreatorOk(s', id, c)
  {
  }

  /** An erasure's own statement keeps the database in order, and the erasure itself. */
  lemma ActKeepsOrder(db: Db, q: Eraser, step: Step)
    requires EraserOk(db, q) && forall id | id in db.apps :: AppOk(db, id)
    ensures var o := Act(db, q, step);
            && Shrinks(db, o.db)
            && (forall id | id in o.db.apps :: AppOk(o.db, id))
            && (o.eraser.Some? ==> EraserOk(o.db, o.eraser.value))
  {
  }

  // ── Every run ───────────────────────────────────────────────────────────────

  lemma EraserStepKeeps(s: State, p: nat, step: Step)
    requires Inv(s)
    ensures Inv(EraserNext(s, p, step))
  {
    if p in s.erasers {
      var s' := EraserNext(s, p, step);
      ActKeepsOrder(s.db, s.erasers[p], step);
      forall id | id in s'.creators ensures CreatorOk(s', id, s'.creators[id]) {
        ShrinkKeepsCreator(s, s', id, s.creators[id]);
      }
      forall r | r in s'.erasers ensures EraserOk(s'.db, s'.erasers[r]) {
        if r != p {
          ShrinkKeepsEraser(s.db, s'.db, s.erasers[r]);
        }
      }
    }
  }

  lemma UploadKeeps(s: State, id: AppId, key: string, stored: bool, ok: bool)
    requires Inv(s)
    ensures Inv(UploadAct(s, id, key, stored, ok))
  {
    var s' := UploadAct(s, id, key, stored, ok);
    if s' != s {
      assert CreatorOk(s, id, s.creators[id]);
      forall other | other != id ensures ObjectsOf(s'.db, other) == ObjectsOf(s.db, other) {
      }
      forall other | other in s'.db.apps ensures AppOk(s'.db, other) {
        assert AppOk(s.db, other) && RowsOf(s'.db, other) == RowsOf(s.db, other);
      }
      forall other | other in s'.creators ensures CreatorOk(s', other, s'.creators[other]) {
        assert CreatorOk(s, other, s.creators[other]);
      }
      forall r | r in s'.erasers ensures EraserOk(s'.db, s'.erasers[r]) {
        assert EraserOk(s.db, s.erasers[r]) && RowsOf(s'.db, s.erasers[r].app) == RowsOf(s.db, s.erasers[r].app);
      }
    }
  }

  lemma CommitKeeps(s: State, id: AppId, person: Person, until: int, stored: bool, ok: bool)
    requires Inv(s)
    ensures Inv(CommitAct(s, id, person, until, stored, ok))
  {
    var s' := CommitAct(s, id, person, until, stored, ok);
    if s' != s {
      var c := s.creators[id];
      assert CreatorOk(s, id, c);
      assert RowsOf(s.db, id) == {};
      forall other ensures ObjectsOf(s'.db, other) == ObjectsOf(s.db, other) {
      }
      forall other | other != id ensures RowsOf(s'.db, other) == RowsOf(s.db, other) {
      }
      assert stored ==> RowsOf(s'.db, id) == c.uploaded;
      forall other | other in s'.db.apps ensures AppOk(s'.db, other) {
        assert other != id ==> AppOk(s.db, other);
      }
      forall other | other in s'.creators ensures CreatorOk(s', other, s'.creators[other]) {
        assert CreatorOk(s, other, s.creators[other]);
      }
      forall r | r in s'.erasers ensures EraserOk(s'.db, s'.erasers[r]) {
        assert EraserOk(s.db, s.erasers[r]);
      }
    }
  }

  lemma BeginKeeps(s: State, step: Step)
    requires Inv(s) && (step.BeginCreate? || step.AbandonCreate? || step.BeginErase?)
    ensures Inv(Next(s, step))
  {
  }

  lemma CleanUpKeeps(s: State, step: Step)
    requires Inv(s) && step.CleanUp?
    ensures Inv(Next(s, step))
  {
  }

  lemma SetHoldKeeps(s: State, step: Step)
    requires Inv(s) && step.SetHold?
    ensures Inv(Next(s, step))
  {
  }

  lemma NextKeeps(s: State, step: Step)
    requires Inv(s)
    ensures Inv(Next(s, step))
  {
    match step
    case Upload(id, key, stored, ok) => UploadKeeps(s, id, key, stored, ok);
    case Commit(id, person, until, stored, ok) => CommitKeeps(s, id, person, until, stored, ok);
    case MarkRequested(p) => EraserStepKeeps(s, p, step);
    case DeleteObject(p, _, _) => EraserStepKeeps(s, p, step);
    case DropRows(p) => EraserStepKeeps(s, p, step);
    case Finalise(p) => EraserStepKeeps(s, p, step);
    case AbandonErase(p) => EraserStepKeeps(s, p, step);
    case CleanUp(_, _, _) => CleanUpKeeps(s, step);
    case SetHold(_, _) => SetHoldKeeps(s, step);
    case _ => BeginKeeps(s, step);
  }

  lemma {:induction false} RunKeeps(s: State, run: seq<Step>)
    requires Inv(s)
    ensures Inv(Exec(s, run))
  {
    if run != [] {
      RunKeeps(s, run[..|run| - 1]);
      NextKeeps(Exec(s, run[..|run| - 1]), run[|run| - 1]);
    }
  }

  /**
   * In every run, whatever fails or dies: of an erased application no row, object
   * or identifier is left; every object of a stored application has its row; and
   * an application that lost a file stays flagged.
   */
  lemma ErasureIsSafe(run: seq<Step>, id: AppId)
    ensures var db := Exec(INIT, run).db;
            id in db.apps ==> ErasedIsGone(db, id) && ObjectsHaveRows(db, id) && LossIsFlagged(db, id)
  {
    RunKeeps(INIT, run);
    assert id in Exec(INIT, run).db.apps ==> AppOk(Exec(INIT, run).db, id);
  }

  // ── Legal hold ──────────────────────────────────────────────────────────────

  /** No one lifts or renews the hold during the run. */
  ghost predicate LeavesHold(run: seq<Step>, id: AppId) {
    forall i | 0 <= i < |run| && run[i].SetHold? :: run[i].id != id
  }

  /** The application is held, and no call that could touch it is under way. */
  ghost predicate HeldAndIdle(s: State, id: AppId) {
    && id in s.db.apps && s.db.apps[id].legalHold && id !in s.creators
    && (forall p | p in s.erasers :: s.erasers[p].app != id)
  }

  ghost predicate SameRecord(db: Db, db': Db, id: AppId) {
    && id in db.apps && id in db'.apps && db'.apps[id] == db.apps[id]
    && RowsOf(db', id) == RowsOf(db, id) && ObjectsOf(db', id) == ObjectsOf(db, id)
  }

  /**
   * Nothing an erasure still does can cost the record anything: it has failed, and what
   * it has yet to do is done already.
   */
  ghost predicate EraserSpent(db: Db, q: Eraser) {
    q.failed != {} && q.pending !! db.rows + db.objects && q.gone !! db.rows
  }

  /**
   * Every erasure of the record that is under way is spent, and a submission cleaning up
   * has nothing left to delete.
   */
  ghost predicate Spent(s: State, id: AppId) {
    && (forall p | p in s.erasers && s.erasers[p].app == id :: EraserSpent(s.db, s.erasers[p]))
    && (id in s.creators ==> s.creators[id].uploaded !! s.db.objects)
  }

  /** Held, and erased already or safe from every call under way. */
  ghost predicate HeldFast(s: State, id: AppId) {
    && id in s.db.apps && s.db.apps[id].legalHold
    && (s.db.apps[id].erased || Spent(s, id))
  }

  lemma SpentActIsIdle(db: Db, q: Eraser, step: Step)
    requires EraserOk(db, q) && AppOk(db, q.app) && (db.apps[q.app].erased || EraserSpent(db, q))
    ensures var o := Act(db, q, step);
            && SameRecord(db, o.db, q.app)
            && (o.eraser.Some? ==> o.eraser.value.app == q.app)
            && (!db.apps[q.app].erased && o.eraser.Some? ==> EraserSpent(o.db, o.eraser.value))
  {
  }

  lemma ActLeavesOthers(db: Db, q: Eraser, step: Step, id: AppId)
    requires EraserOk(db, q) && q.app != id && id in db.apps
    ensures SameRecord(db, Act(db, q, step).db, id)
    ensures Act(db, q, step).eraser.Some? ==> Act(db, q, step).eraser.value.app == q.app
  {
  }

  /** What a statement means for a held record, whether it belongs to an erasure of that record or of another. */
  lemma ActOnHeld(db: Db, q: Eraser, step: Step, id: AppId)
    requires EraserOk(db, q) && id in db.apps && AppOk(db, id)
    requires q.app == id ==> db.apps[id].erased || EraserSpent(db, q)
    ensures var o := Act(db, q, step);
            && SameRecord(db, o.db, id)
            && (o.eraser.Some? && o.eraser.value.app == id && !db.apps[id].erased ==> EraserSpent(o.db, o.eraser.value))
  {
    if q.app == id {
      SpentActIsIdle(db, q, step);
    } else {
      ActLeavesOthers(db, q, step, id);
    }
  }

  lemma ShrinkKeepsSpent(db: Db, db': Db, q: Eraser)
    requires Shrinks(db, db') && EraserSpent(db, q)
    ensures EraserSpent(db', q)
  {
  }

  lemma ShrinkKeepsOthersSpent(s: State, s': State, p: nat, id: AppId)
    requires Shrinks(s.db, s'.db) && s'.creators == s.creators && Spent(s, id)
    requires s'.erasers.Keys <= s.erasers.Keys && forall r | r in s'.erasers && r != p :: s'.erasers[r] == s.erasers[r]
    requires p in s'.erasers && s'.erasers[p].app == id ==> EraserSpent(s'.db, s'.erasers[p])
    ensures Spent(s', id)
  {
    forall r | r in s'.erasers && s'.erasers[r].app == id ensures EraserSpent(s'.db, s'.erasers[r]) {
      if r != p {
        ShrinkKeepsSpent(s.db, s'.db, s.erasers[r]);
      }
    }
  }

  /** The statement `step` of call `p` leads from `s` to `s'`. */
  lemma OutcomeHoldsFast(s: State, s': State, p: nat, o: Outcome, id: AppId)
    requires HeldFast(s, id) && p in s.erasers && Shrinks(s.db, o.db) && SameRecord(s.db, o.db, id)
    requires o.eraser.Some? && o.eraser.value.app == id && !s.db.apps[id].erased ==> EraserSpent(o.db, o.eraser.value)
    requires s' == s.(db := o.db,
                      erasers := if o.eraser.Some? then s.erasers[p := o.eraser.value] else s.erasers - {p})
    ensures HeldFast(s', id)
  {
    if !s.db.apps[id].erased {
      ShrinkKeepsOthersSpent(s, s', p, id);
    }
  }

  lemma EraserStepHoldsFast(s: State, step: Step, id: AppId)
    requires Inv(s) && HeldFast(s, id) && IsEraserStep(step) && step.p in s.erasers
    ensures HeldFast(Next(s, step), id) && SameRecord(s.db, Next(s, step).db, id)
  {
    var q := s.erasers[step.p];
    assert EraserOk(s.db, q) && AppOk(s.db, id);
    ActKeepsOrder(s.db, q, step);
    ActOnHeld(s.db, q, step, id);
    OutcomeHoldsFast(s, EraserNext(s, step.p, step), step.p, Act(s.db, q, step), id);
  }

  lemma UploadHoldsFast(s: State, step: Step, id: AppId)
    requires Inv(s) && HeldFast(s, id) && step.Upload?
    ensures HeldFast(Next(s, step), id) && SameRecord(s.db, Next(s, step).db, id)
  {
    var s' := Next(s, step);
    if s' != s {
      assert CreatorOk(s, step.id, s.creators[step.id]) && step.id != id;
      forall p | p in s.erasers && s.erasers[p].app == id && EraserSpent(s.db, s.erasers[p])
        ensures EraserSpent(s'.db, s.erasers[p])
      {
        assert EraserOk(s.db, s.erasers[p]);
      }
      assert id in s.creators ==> CreatorOk(s, id, s.creators[id]);
    }
  }

  lemma CommitHoldsFast(s: State, step: Step, id: AppId)
    requires Inv(s) && HeldFast(s, id) && step.Commit?
    ensures HeldFast(Next(s, step), id) && SameRecord(s.db, Next(s, step).db, id)
  {
    var s' := Next(s, step);
    if s' != s {
      assert CreatorOk(s, step.id, s.creators[step.id]) && step.id != id;
      forall p | p in s.erasers && s.erasers[p].app == id && EraserSpent(s.db, s.erasers[p])
        ensures EraserSpent(s'.db, s.erasers[p])
      {
        assert EraserOk(s.db, s.erasers[p]);
      }
    }
  }

  lemma CleanUpHoldsFast(s: State, step: Step, id: AppId)
    requires Inv(s) && HeldFast(s, id) && step.CleanUp?
    ensures HeldFast(Next(s, step), id) && SameRecord(s.db, Next(s, step).db, id)
  {
    assert AppOk(s.db, id);
    assert step.id in s.creators ==> CreatorOk(s, step.id, s.creators[step.id]);
  }

  lemma OtherStepHoldsFast(s: State, step: Step, id: AppId)
    requires Inv(s) && HeldFast(s, id) && (step.SetHold? ==> step.id != id)
    requires !IsEraserStep(step) && !step.Upload? && !step.Commit? && !step.CleanUp?
    ensures HeldFast(Next(s, step), id) && SameRecord(s.db, Next(s, step).db, id)
  {
    assert id in s.known;
  }

  lemma NextHoldsFast(s: State, step: Step, id: AppId)
    requires Inv(s) && HeldFast(s, id) && (step.SetHold? ==> step.id != id)
    ensures HeldFast(Next(s, step), id) && SameRecord(s.db, Next(s, step).db, id)
  {
    if IsEraserStep(step) {
      if step.p in s.erasers {
        EraserStepHoldsFast(s, step, id);
      }
    } else if step.Upload? {
      UploadHoldsFast(s, step, id);
    } else if step.Commit? {
      CommitHoldsFast(s, step, id);
    } else if step.CleanUp? {
      CleanUpHoldsFast(s, step, id);
    } else {
      OtherStepHoldsFast(s, step, id);
    }
  }

  lemma {:induction false} HoldsFast(s: State, run: seq<Step>, id: AppId)
    requires Inv(s) && HeldFast(s, id) && LeavesHold(run, id)
    ensures HeldFast(Exec(s, run), id) && SameRecord(s.db, Exec(s, run).db, id)
  {
    if run != [] {
      var n := |run| - 1;
      assert LeavesHold(run[..n], id);
      HoldsFast(s, run[..n], id);
      RunKeeps(s, run[..n]);
      NextHoldsFast(Exec(s, run[..n]), run[n], id);
    }
  }

  /** A held application with no call under way is left exactly as it is, record, rows and files, whatever else runs. */
  lemma HeldIsUntouched(s: State, run: seq<Step>, id: AppId)
    requires Inv(s) && HeldAndIdle(s, id) && LeavesHold(run, id)
    ensures SameRecord(s.db, Exec(s, run).db, id)
  {
    HoldsFast(s, run, id);
  }

  /** An erasure that has not failed on any document yet. */
  ghost predicate Unfailing(s: State, p: nat, id: AppId) {
    p in s.erasers && s.erasers[p].app == id && s.erasers[p].failed == {}
  }

  ghost predicate HeldAndSafe(s: State, id: AppId) {
    && id in s.db.apps && s.db.apps[id].legalHold && !s.db.apps[id].erased
    && forall p :: !Unfailing(s, p, id)
  }

  lemma NextStaysSafe(s: State, step: Step, id: AppId)
    requires Inv(s) && HeldAndSafe(s, id) && (step.SetHold? ==> step.id != id)
    ensures HeldAndSafe(Next(s, step), id)
  {
    if IsEraserStep(step) {
      EraserStepStaysSafe(s, step, id);
    } else {
      OtherStepStaysSafe(s, step, id);
    }
  }

  lemma ActStaysFailed(db: Db, q: Eraser, step: Step, id: AppId)
    requires EraserOk(db, q) && id in db.apps && (q.app == id ==> q.failed != {})
    ensures var o := Act(db, q, step);
            && id in o.db.apps && o.db.apps[id].legalHold == db.apps[id].legalHold
            && o.db.apps[id].erased == db.apps[id].erased
            && (o.eraser.Some? && o.eraser.value.app == id ==> o.eraser.value.failed != {})
  {
  }

  lemma EraserStepStaysSafe(s: State, step: Step, id: AppId)
    requires Inv(s) && HeldAndSafe(s, id) && IsEraserStep(step)
    ensures HeldAndSafe(Next(s, step), id)
  {
    if step.p in s.erasers {
      assert EraserOk(s.db, s.erasers[step.p]) && !Unfailing(s, step.p, id);
      ActStaysFailed(s.db, s.erasers[step.p], step, id);
      var s' := EraserNext(s, step.p, step);
      assert Next(s, step) == s';
      forall p ensures !Unfailing(s', p, id) {
        assert !Unfailing(s, p, id);
      }
    }
  }

  lemma OtherStepStaysSafe(s: State, step: Step, id: AppId)
    requires Inv(s) && HeldAndSafe(s, id) && !IsEraserStep(step) && (step.SetHold? ==> step.id != id)
    ensures HeldAndSafe(Next(s, step), id)
  {
    if step.Commit? && step.id in s.creators {
      assert CreatorOk(s, step.id, s.creators[step.id]);
    }
    forall p ensures !Unfailing(Next(s, step), p, id) {
      assert !Unfailing(s, p, id);
    }
  }

  lemma {:induction false} StaysSafe(s: State, run: seq<Step>, id: AppId)
    requires Inv(s) && HeldAndSafe(s, id) && LeavesHold(run, id)
    ensures HeldAndSafe(Exec(s, run), id)
  {
    if run != [] {
      var n := |run| - 1;
      assert LeavesHold(run[..n], id);
      StaysSafe(s, run[..n], id);
      RunKeeps(s, run[..n]);
      NextStaysSafe(Exec(s, run[..n]), run[n], id);
    }
  }

  // ── Running one erasure to its end ──────────────────────────────────────────

  function Confirmed(docs: set<Doc>,
          verdicts: Doc -> Verdict): set<Doc> { set d | d in docs && verdicts(d) == CONFIRMED }

  function Removed(docs: set<Doc>, verdicts: Doc -> Verdict): set<Doc> { set d | d in docs && verdicts(d) != KEPT }

  /** The erasure after it has tried all that was pending. */
  function Tried(q: Eraser, verdicts: Doc -> Verdict): Eraser {
    var yes := Confirmed(q.pending, verdicts);
    q.(pending := {}, gone := q.gone + yes, failed := q.failed + (q.pending - yes))
  }

  function AfterDeletes(s: State, p: nat, verdicts: Doc -> Verdict): State
    requires p in s.erasers
  {
    s.(db := s.db.(objects := s.db.objects - Removed(s.erasers[p].pending, verdicts)),
       erasers := s.erasers[p := Tried(s.erasers[p], verdicts)])
  }

  ghost predicate OnlyBy(run: seq<Step>, p: nat) {
    forall i | 0 <= i < |run| :: IsEraserStep(run[i]) && run[i].p == p
  }

  lemma OneDelete(s: State, p: nat, d: Doc, verdicts: Doc -> Verdict)
    requires p in s.erasers && s.erasers[p].phase == DELETING && d in s.erasers[p].pending
    ensures var s' := Next(s, DeleteObject(p, d, verdicts(d)));
            && p in s'.erasers && s'.erasers[p].phase == DELETING
            && s'.erasers[p].pending == s.erasers[p].pending - {d}
            && AfterDeletes(s', p, verdicts) == AfterDeletes(s, p, verdicts)
  {
    var s' := Next(s, DeleteObject(p, d, verdicts(d)));
    var q, q' := s.erasers[p], s'.erasers[p];
    assert Tried(q', verdicts) == Tried(q, verdicts) by {
      assert Tried(q', verdicts).gone == Tried(q, verdicts).gone;
      assert Tried(q', verdicts).failed == Tried(q, verdicts).failed;
    }
    assert s'.db.objects - Removed(q'.pending, verdicts) == s.db.objects - Removed(q.pending, verdicts);
  }

  /** Whatever the verdicts, the deletions can run one after the other. */
  lemma {:induction false} RunDeletes(s: State, p: nat, verdicts: Doc -> Verdict) returns (run: seq<Step>)
    requires p in s.erasers && s.erasers[p].phase == DELETING
    ensures OnlyBy(run, p) && Exec(s, run) == AfterDeletes(s, p, verdicts)
    decreases |s.erasers[p].pending|
  {
    var q := s.erasers[p];
    if q.pending == {} {
      run := [];
      assert Tried(q, verdicts) == q && s.db.objects - Removed(q.pending, verdicts) == s.db.objects;
    } else {
      var d :| d in q.pending;
      var step := DeleteObject(p, d, verdicts(d));
      OneDelete(s, p, d, verdicts);
      var rest := RunDeletes(Next(s, step), p, verdicts);
      run := [step] + rest;
      ExecConcat(s, [step], rest);
      assert Exec(s, [step]) == Next(s, step) by {
        assert [step][..0] == [];
      }
    }
  }

  lemma ExecAppend(s: State, run: seq<Step>, step: Step)
    ensures Exec(s, run + [step]) == Next(Exec(s, run), step)
  {
  }

  lemma ExecPrepend(s: State, step: Step, run: seq<Step>)
    ensures Exec(s, [step] + run) == Exec(Next(s, step), run)
  {
    ExecConcat(s, [step], run);
    assert [step][..0] == [];
  }

  /** The database after an erasure has tried every document: finalised if all are gone. */
  function Ended(db: Db, q: Eraser, verdicts: Doc -> Verdict): Db {
    var t := Tried(q, verdicts);
    var apps := if t.failed == {} && q.app in db.apps then db.apps[q.app := Finalised(db.apps[q.app], q.app)]
                else db.apps;
    Db(apps, db.rows - t.gone, db.objects - Removed(q.pending, verdicts))
  }

  /** Dropping the rows, and finalising if nothing failed, ends the erasure. */
  lemma RunEnding(s: State, p: nat) returns (run: seq<Step>)
    requires p in s.erasers && s.erasers[p].phase == DELETING && s.erasers[p].pending == {}
             && s.erasers[p].app in s.db.apps
    ensures OnlyBy(run, p)
    ensures var q := s.erasers[p];
            var apps := if q.failed == {} then s.db.apps[q.app := Finalised(s.db.apps[q.app], q.app)] else s.db.apps;
            Exec(s, run) == s.(db := Db(apps, s.db.rows - q.gone, s.db.objects), erasers := s.erasers - {p})
  {
    run := [DropRows(p)];
    ExecAppend(s, [], DropRows(p));
    assert [] + [DropRows(p)] == run;
    var dropped := Next(s, DropRows(p));
    if s.erasers[p].failed == {} {
      ExecAppend(s, run, Finalise(p));
      run := run + [Finalise(p)];
      assert dropped.erasers - {p} == s.erasers - {p};
    }
  }

  lemma RunFromDeleting(s: State, p: nat, verdicts: Doc -> Verdict) returns (run: seq<Step>)
    requires p in s.erasers && s.erasers[p].phase == DELETING && s.erasers[p].app in s.db.apps
    ensures OnlyBy(run, p)
    ensures Exec(s, run) == s.(db := Ended(s.db, s.erasers[p], verdicts), erasers := s.erasers - {p})
  {
    var deletes := RunDeletes(s, p, verdicts);
    var tried := AfterDeletes(s, p, verdicts);
    var ending := RunEnding(tried, p);
    ExecConcat(s, deletes, ending);
    run := deletes + ending;
    assert tried.erasers - {p} == s.erasers - {p};
  }

  lemma RunFromMarking(s: State, p: nat, verdicts: Doc -> Verdict) returns (run: seq<Step>)
    requires p in s.erasers && s.erasers[p].phase == MARKING && s.erasers[p].app in s.db.apps
    ensures OnlyBy(run, p)
    ensures var s' := Next(s, MarkRequested(p));
            && p in s'.erasers
            && Exec(s, run) == s'.(db := Ended(s'.db, s'.erasers[p], verdicts), erasers := s'.erasers - {p})
  {
    var step := MarkRequested(p);
    var rest := RunFromDeleting(Next(s, step), p, verdicts);
    run := [step] + rest;
    ExecPrepend(s, step, rest);
  }

  /** An erasure that has not failed yet can still finalise, hold or no hold. */
  lemma RunToTheEnd(s: State, p: nat, id: AppId) returns (run: seq<Step>)
    requires Inv(s) && Unfailing(s, p, id)
    ensures OnlyBy(run, p) && ErasedIn(Exec(s, run).db, id)
  {
    var verdicts := (d: Doc) => CONFIRMED;
    assert EraserOk(s.db, s.erasers[p]);
    assert forall docs: set<Doc> :: Confirmed(docs, verdicts) == docs;
    match s.erasers[p].phase
    case MARKING => run := RunFromMarking(s, p, verdicts);
    case DELETING => run := RunFromDeleting(s, p, verdicts);
    case FINISHING =>
      run := [Finalise(p)];
      ExecAppend(s, [], Finalise(p));
      assert [] + [Finalise(p)] == run;
  }

  ghost predicate ErasedIn(db: Db, id: AppId) { id in db.apps && db.apps[id].erased }

  /**
   * The hold is checked once, when an erasure begins. A held application stays
   * unerased in every run exactly when every erasure of it that is already under
   * way has failed on some document.
   */
  lemma HoldWinsIff(s: State, id: AppId)
    requires Inv(s) && id in s.db.apps && s.db.apps[id].legalHold && !s.db.apps[id].erased
    ensures (forall run | LeavesHold(run, id) :: !ErasedIn(Exec(s, run).db, id)) <==> forall p :: !Unfailing(s, p, id)
  {
    if forall p :: !Unfailing(s, p, id) {
      forall run | LeavesHold(run, id) ensures !ErasedIn(Exec(s, run).db, id) {
        StaysSafe(s, run, id);
      }
    } else {
      var p :| Unfailing(s, p, id);
      var run := RunToTheEnd(s, p, id);
      assert LeavesHold(run, id) && ErasedIn(Exec(s, run).db, id);
    }
  }

  // ── What can still happen to a held record ──────────────────────────────────

  /** An erasure that has failed before can still take a document that is left. */
  lemma RunUnspent(s: State, p: nat) returns (run: seq<Step>)
    requires Inv(s) && p in s.erasers && !EraserSpent(s.db, s.erasers[p]) && !s.db.apps[s.erasers[p].app].erased
    ensures OnlyBy(run, p) && !SameRecord(s.db, Exec(s, run).db, s.erasers[p].app)
  {
    var q := s.erasers[p];
    var id := q.app;
    assert EraserOk(s.db, q);
    if q.failed == {} {
      assert Unfailing(s, p, id);
      run := RunToTheEnd(s, p, id);
    } else {
      var verdicts := (d: Doc) => CONFIRMED;
      run := RunFromDeleting(s, p, verdicts);
      UnspentLoses(s.db, q);
    }
  }

  lemma UnspentLoses(db: Db, q: Eraser)
    requires EraserOk(db, q) && q.failed != {} && !EraserSpent(db, q)
    ensures !SameRecord(db, Ended(db, q, (d: Doc) => CONFIRMED), q.app)
  {
    var verdicts := (d: Doc) => CONFIRMED;
    var db' := Ended(db, q, verdicts);
    assert Confirmed(q.pending, verdicts) == q.pending && Removed(q.pending, verdicts) == q.pending;
    if d :| d in q.pending + q.gone && d in db.rows {
      assert d in RowsOf(db, q.app) && d !in RowsOf(db', q.app);
    } else {
      var d :| d in q.pending && d in db.objects;
      assert d in ObjectsOf(db, q.app) && d !in ObjectsOf(db', q.app);
    }
  }

  lemma CleanUpLoses(s: State, id: AppId, d: Doc)
    requires Inv(s) && id in s.db.apps && id in s.creators && d in s.creators[id].uploaded && d in s.db.objects
    ensures !SameRecord(s.db, Exec(s, [CleanUp(id, d, CONFIRMED)]).db, id)
  {
    assert CreatorOk(s, id, s.creators[id]);
    ExecAppend(s, [], CleanUp(id, d, CONFIRMED));
    assert [] + [CleanUp(id, d, CONFIRMED)] == [CleanUp(id, d, CONFIRMED)];
    var db' := Next(s, CleanUp(id, d, CONFIRMED)).db;
    assert d in ObjectsOf(s.db, id) && d !in ObjectsOf(db', id);
  }

  /**
   * A held record keeps its data, rows and files in every run exactly when it is
   * erased already or every call under way for it is spent: each erasure has
   * failed on some document and has nothing left to delete or to drop, and a
   * submission that is cleaning up has no file left.
   */
  lemma HeldIsUntouchedIff(s: State, id: AppId)
    requires Inv(s) && id in s.db.apps && s.db.apps[id].legalHold
    ensures (forall run | LeavesHold(run, id) :: SameRecord(s.db, Exec(s, run).db, id))
            <==> s.db.apps[id].erased || Spent(s, id)
  {
    if s.db.apps[id].erased || Spent(s, id) {
      forall run | LeavesHold(run, id) ensures SameRecord(s.db, Exec(s, run).db, id) {
        HoldsFast(s, run, id);
      }
    } else if p :| p in s.erasers && s.erasers[p].app == id && !EraserSpent(s.db, s.erasers[p]) {
      var run := RunUnspent(s, p);
      assert LeavesHold(run, id) && !SameRecord(s.db, Exec(s, run).db, id);
    } else {
      var d :| d in s.creators[id].uploaded && d in s.db.objects;
      CleanUpLoses(s, id, d);
      assert LeavesHold([CleanUp(id, d, CONFIRMED)], id);
    }
  }
}
