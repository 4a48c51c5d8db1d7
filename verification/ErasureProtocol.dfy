// Submitting and erasing applications as interleaved steps over a database and an
// object store that share no transaction. Deleting an object may fail, even after
// the object is gone; any call may die between two steps; an operator may place a
// legal hold at any time. A step that is not enabled leaves the state alone.
module ErasureProtocol {
  import opened Common

  type AppId = string

  /** A stored file: the application it belongs to and its unique key. A row and an object carry the same key. */
  datatype Doc = Doc(app: AppId, key: string)

  datatype Person = Person(firstName: string, lastName: string, birthYear: Option<int>, email: string, phone: string,
                           details: seq<string>)

  /** `submitted`: the documents it was stored with. */
  datatype App = App(
    person: Person,
    retentionUntil: Option<int>,
    legalHold: bool,
    requested: bool,
    erased: bool,
    submitted: set<Doc>)

  datatype Db = Db(apps: map<AppId, App>, rows: set<Doc>, objects: set<Doc>)

  datatype Phase = MARKING | DELETING | FINISHING

  /** A running erasure; documents wait in `pending` and end up in `gone` or `failed`. */
  datatype Eraser = Eraser(app: AppId, phase: Phase, pending: set<Doc>, gone: set<Doc>, failed: set<Doc>)

  /** A running submission: what it uploaded, and whether it is cleaning up. */
  datatype Creator = Creator(uploaded: set<Doc>, cleaning: bool)

  datatype State = State(db: Db, known: set<AppId>, creators: map<AppId, Creator>, erasers: map<nat, Eraser>)

  const INIT := State(Db(map[], {}, {}), {}, map[], map[])

  /** What deleting an object comes to: a confirmed deletion, or an error, in which case it may be gone or not. */
  datatype Verdict = CONFIRMED | LOST_REPLY | KEPT

  datatype Step =
    | BeginCreate(id: AppId)
    | Upload(id: AppId, key: string, stored: bool, ok: bool)
    | Commit(id: AppId, person: Person, retentionUntil: int, stored: bool, ok: bool)
    | CleanUp(id: AppId, doc: Doc, verdict: Verdict)
    | AbandonCreate(id: AppId)
    | BeginErase(p: nat, id: AppId)
    | MarkRequested(p: nat)
    | DeleteObject(p: nat, doc: Doc, verdict: Verdict)
    | DropRows(p: nat)
    | Finalise(p: nat)
    | AbandonErase(p: nat)
    | SetHold(id: AppId, hold: bool)

  function RowsOf(db: Db, id: AppId): set<Doc> { set d | d in db.rows && d.app == id }

  function ObjectsOf(db: Db, id: AppId): set<Doc> { set d | d in db.objects && d.app == id }

  /** What replaces the identifiers of an erased application. */
  function Anonymous(id: AppId): Person {
    Person("ERASED", "ERASED", None, "erased+" + id + "@invalid.local", "+000000000000", [])
  }

  function Marked(app: App): App { app.(requested := true) }

  function Finalised(app: App, id: AppId): App { app.(person := Anonymous(id), erased := true) }

  function AfterDelete(objects: set<Doc>, doc: Doc, verdict: Verdict): set<Doc> {
    if verdict == KEPT then objects else objects - {doc}
  }

  // ── One statement of an erasure ─────────────────────────────────────────────

  /** The database afterwards, and the erasure unless it has ended. */
  datatype Outcome = Outcome(db: Db, eraser: Option<Eraser>)

  /** `findFirst(id, erasedAt: null)`: ends for an unknown, erased or held application. */
  function BeginEraseAct(db: Db, id: AppId): Option<Eraser> {
    if id in db.apps && !db.apps[id].erased && !db.apps[id].legalHold
    then Some(Eraser(id, if db.apps[id].requested then DELETING else MARKING, RowsOf(db, id), {}, {}))
    else None
  }

  function Act(db: Db, q: Eraser, step: Step): Outcome {
    match step
    case MarkRequested(_) =>
      if q.phase == MARKING && q.app in db.apps
      then Outcome(db.(apps := db.apps[q.app := Marked(db.apps[q.app])]), Some(q.(phase := DELETING)))
      else Outcome(db, Some(q))
    case DeleteObject(_, doc, verdict) =>
      if q.phase == DELETING && doc in q.pending then
        Outcome(db.(objects := AfterDelete(db.objects, doc, verdict)),
                Some(if verdict == CONFIRMED then q.(pending := q.pending - {doc}, gone := q.gone + {doc})
                     else q.(pending := q.pending - {doc}, failed := q.failed + {doc})))
      else Outcome(db, Some(q))
    case DropRows(_) =>
      if q.phase == DELETING && q.pending == {} then
        Outcome(db.(rows := db.rows - q.gone), if q.failed == {} then Some(q.(phase := FINISHING)) else None)
      else Outcome(db, Some(q))
    case Finalise(_) =>
      if q.phase == FINISHING && q.app in db.apps
      then Outcome(db.(apps := db.apps[q.app := Finalised(db.apps[q.app], q.app)]), None)
      else Outcome(db, Some(q))
    case AbandonErase(_) => Outcome(db, None)
    case _ => Outcome(db, Some(q))
  }

  predicate IsEraserStep(step: Step) {
    step.MarkRequested? || step.DeleteObject? || step.DropRows? || step.Finalise? || step.AbandonErase?
  }

  // ── One statement of a submission ───────────────────────────────────────────

  /** A file is stored under a fresh key; an error, stored or not, starts the clean-up. */
  function UploadAct(s: State, id: AppId, key: string, stored: bool, ok: bool): State {
    var doc := Doc(id, key);
    if id in s.creators && !s.creators[id].cleaning && doc !in s.db.objects && (ok ==> stored) then
      var c := s.creators[id];
      s.(db := s.db.(objects := if stored then s.db.objects + {doc} else s.db.objects),
         creators := s.creators[id := if ok then c.(uploaded := c.uploaded + {doc}) else c.(cleaning := true)])
    else s
  }

  /** One transaction stores the application with all its rows, or nothing; its success may go unnoticed. */
  function CommitAct(s: State, id: AppId, person: Person, retentionUntil: int, stored: bool, ok: bool): State {
    if id in s.creators && !s.creators[id].cleaning && (ok ==> stored) then
      var c := s.creators[id];
      s.(db := if stored
               then s.db.(apps := s.db.apps[id := App(person, Some(retentionUntil), false, false, false, c.uploaded)],
                          rows := s.db.rows + c.uploaded)
               else s.db,
         creators := if ok then s.creators - {id} else s.creators[id := c.(cleaning := true)])
    else s
  }

  function Next(s: State, step: Step): State {
    match step
    case BeginCreate(id) =>
      if id !in s.known then s.(known := s.known + {id}, creators := s.creators[id := Creator({}, false)]) else s
    case Upload(id, key, stored, ok) => UploadAct(s, id, key, stored, ok)
    case Commit(id, person, until, stored, ok) => CommitAct(s, id, person, until, stored, ok)
    case CleanUp(id, doc, verdict) =>
      if id in s.creators && s.creators[id].cleaning && doc in s.creators[id].uploaded
      then s.(db := s.db.(objects := AfterDelete(s.db.objects, doc, verdict))) else s
    case AbandonCreate(id) => s.(creators := s.creators - {id})
    case BeginErase(p, id) =>
      if p !in s.erasers && BeginEraseAct(s.db, id).Some?
      then s.(erasers := s.erasers[p := BeginEraseAct(s.db, id).value]) else s
    case SetHold(id, hold) =>
      if id in s.db.apps then s.(db := s.db.(apps := s.db.apps[id := s.db.apps[id].(legalHold := hold)])) else s
    case MarkRequested(p) => EraserNext(s, p, step)
    case DeleteObject(p, _, _) => EraserNext(s, p, step)
    case DropRows(p) => EraserNext(s, p, step)
    case Finalise(p) => EraserNext(s, p, step)
    case AbandonErase(p) => EraserNext(s, p, step)
  }

  function EraserNext(s: State, p: nat, step: Step): State {
    if p in s.erasers then
      var o := Act(s.db, s.erasers[p], step);
      s.(db := o.db, erasers := if o.eraser.Some? then s.erasers[p := o.eraser.value] else s.erasers - {p})
    else s
  }

  /** The state after a run. */
  function Exec(s: State, run: seq<Step>): State {
    if run == [] then s else Next(Exec(s, run[..|run| - 1]), run[|run| - 1])
  }

  lemma {:induction false} ExecConcat(s: State, run: seq<Step>, more: seq<Step>)
    ensures Exec(s, run + more) == Exec(Exec(s, run), more)
  {
    if more == [] {
      assert run + more == run;
    } else {
      var n := |more| - 1;
      ExecConcat(s, run, more[..n]);
      assert (run + more)[..|run| + n] == run + more[..n];
    }
  }
}
