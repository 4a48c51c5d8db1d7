// What every interleaving of requests, verifications, redemptions and prunes keeps:
// the attempt budget, at most one win per issued challenge, at most one token
// per win. A re-issue keeps the row id and a verification may hold a stale
// snapshot, so these hold only as counts over the whole run.
module OtpConservation {
  import opened Common
  import opened OtpProtocol

  // ── Rows and the ids that running calls hold ────────────────────────────────

  ghost predicate RowsOk(cfg: Config, db: Db) {
    && (forall c | c in db.challenges ::
          && db.challenges[c].id < db.nextId
          && db.challenges[c].attempts <= db.challenges[c].maxAttempts == cfg.maxAttempts)
    && (forall c, d | c in db.challenges && d in db.challenges && db.challenges[c].id == db.challenges[d].id :: c == d)
  }

  /** If any row carries `id`, it is the row of `c`. */
  ghost predicate IdBelongsTo(db: Db, c: Contact, id: nat) {
    id < db.nextId && forall d | d in db.challenges && db.challenges[d].id == id :: d == c
  }

  ghost predicate ProcOk(cfg: Config, db: Db, q: Proc) {
    && (q.VerRead? ==> IdBelongsTo(db, q.contact, q.snap.id) && q.snap.maxAttempts == cfg.maxAttempts)
    && (q.VerMatched? ==> IdBelongsTo(db, q.contact, q.id))
  }

  ghost predicate ShapeOk(cfg: Config, s: State) {
    RowsOk(cfg, s.db) && forall p | p in s.procs :: ProcOk(cfg, s.db, s.procs[p])
  }

  /** Every row is old, or belongs to a contact whose row already had this id, or has a brand-new id. */
  ghost predicate IdsKept(db: Db, db': Db) {
    && db.nextId <= db'.nextId
    && forall c | c in db'.challenges ::
         db'.challenges[c].id >= db.nextId || (c in db.challenges && db'.challenges[c].id == db.challenges[c].id)
  }

  /** Rows only change in what nobody identifies them by. */
  ghost predicate SameIds(rows: map<Contact, Challenge>, rows': map<Contact, Challenge>) {
    && rows'.Keys == rows.Keys
    && forall c | c in rows :: rows'[c].id == rows[c].id && rows'[c].maxAttempts == rows[c].maxAttempts
  }

  lemma ChargeRowsKeep(rows: map<Contact, Challenge>, id: nat, now: int, maxAttempts: nat)
    ensures SameIds(rows, ChargeRows(rows, id, now, maxAttempts))
  {
  }

  lemma ChargeKeepsRows(cfg: Config, db: Db, q: Proc)
    requires RowsOk(cfg, db) && ProcOk(cfg, db, q)
    ensures RowsOk(cfg, ChargeAct(cfg, db, q).db) && IdsKept(db, ChargeAct(cfg, db, q).db)
  {
    if q.VerRead? {
      ChargeRowsKeep(db.challenges, q.snap.id, db.clock, q.snap.maxAttempts);
    }
  }

  lemma ChargeKeepsProc(cfg: Config, db: Db, q: Proc)
    requires RowsOk(cfg, db) && ProcOk(cfg, db, q)
    ensures var o := ChargeAct(cfg, db, q); o.proc.Some? ==> ProcOk(cfg, o.db, o.proc.value)
  {
    if q.VerRead? {
      ChargeRowsKeep(db.challenges, q.snap.id, db.clock, q.snap.maxAttempts);
    }
  }

  lemma ConsumeKeepsRows(cfg: Config, db: Db, q: Proc)
    requires RowsOk(cfg, db)
    ensures RowsOk(cfg, ConsumeAct(db, q).db) && IdsKept(db, ConsumeAct(db, q).db)
  {
  }

  lemma DeleteKeepsRows(cfg: Config, db: Db, id: nat)
    requires RowsOk(cfg, db)
    ensures RowsOk(cfg, db.(challenges := DeleteById(db.challenges, id)))
    ensures IdsKept(db, db.(challenges := DeleteById(db.challenges, id)))
  {
  }

  lemma UpsertKeepsRows(cfg: Config, db: Db, q: Proc, code: Code)
    requires RowsOk(cfg, db)
    ensures RowsOk(cfg, UpsertAct(cfg, db, q, code).db) && IdsKept(db, UpsertAct(cfg, db, q, code).db)
  {
  }

  /** The remaining statements leave the rows alone or delete one by its id. */
  lemma OtherRows(cfg: Config, db: Db, q: Proc, step: Step)
    requires !step.Charge? && !step.Consume? && !step.UpsertChallenge?
    ensures var o := Act(cfg, db, q, step);
            && o.db.nextId == db.nextId
            && (o.db.challenges == db.challenges || exists id :: o.db.challenges == DeleteById(db.challenges, id))
  {
  }

  lemma OtherKeepsRows(cfg: Config, db: Db, q: Proc, step: Step)
    requires RowsOk(cfg, db) && !step.Charge? && !step.Consume? && !step.UpsertChallenge?
    ensures RowsOk(cfg, Act(cfg, db, q, step).db) && IdsKept(db, Act(cfg, db, q, step).db)
  {
    var o := Act(cfg, db, q, step);
    OtherRows(cfg, db, q, step);
    if o.db.challenges != db.challenges {
      var id :| o.db.challenges == DeleteById(db.challenges, id);
      DeleteKeepsRows(cfg, db, id);
    }
  }

  lemma ActKeepsRows(cfg: Config, db: Db, q: Proc, step: Step)
    requires RowsOk(cfg, db) && ProcOk(cfg, db, q)
    ensures RowsOk(cfg, Act(cfg, db, q, step).db) && IdsKept(db, Act(cfg, db, q, step).db)
  {
    match step
    case Charge(_) => ChargeKeepsRows(cfg, db, q);
    case Consume(_) => ConsumeKeepsRows(cfg, db, q);
    case UpsertChallenge(_, code) => UpsertKeepsRows(cfg, db, q, code);
    case _ => OtherKeepsRows(cfg, db, q, step);
  }

  /** Only the charge moves a call on to a point where it holds a row. */
  lemma OtherHoldsNothing(cfg: Config, db: Db, q: Proc, step: Step)
    requires !step.Charge?
    ensures var o := Act(cfg, db, q, step);
            o.proc.Some? && (o.proc.value.VerRead? || o.proc.value.VerMatched?) ==> o.proc.value == q
  {
  }

  lemma ActKeepsProc(cfg: Config, db: Db, q: Proc, step: Step)
    requires RowsOk(cfg, db) && ProcOk(cfg, db, q)
    ensures var o := Act(cfg, db, q, step); o.proc.Some? ==> ProcOk(cfg, o.db, o.proc.value)
  {
    if step.Charge? {
      ChargeKeepsProc(cfg, db, q);
    } else {
      ActKeepsRows(cfg, db, q, step);
      OtherHoldsNothing(cfg, db, q, step);
      OtherProcKept(cfg, db, Act(cfg, db, q, step).db, q);
    }
  }

  lemma OtherProcKept(cfg: Config, db: Db, db': Db, q: Proc)
    requires ProcOk(cfg, db, q) && IdsKept(db, db')
    ensures ProcOk(cfg, db', q)
  {
  }

  lemma RowsKept(cfg: Config, s: State, step: Step)
    requires ShapeOk(cfg, s)
    ensures RowsOk(cfg, Next(cfg, s, step).db) && IdsKept(s.db, Next(cfg, s, step).db)
  {
    if !Maintains(step) && !Starts(step) && step.p in s.procs {
      ActKeepsRows(cfg, s.db, s.procs[step.p], step);
    }
  }

  lemma StartedOk(cfg: Config, db: Db, step: Step)
    requires RowsOk(cfg, db) && Starts(step)
    ensures Started(db, step).Some? ==> ProcOk(cfg, db, Started(db, step).value)
  {
  }

  /** A call only moves by its own statements. */
  lemma OthersStand(cfg: Config, s: State, step: Step, p: Pid)
    requires p in s.procs && (Maintains(step) || Starts(step) || step.p != p)
    ensures Running(Next(cfg, s, step).procs, p) == Some(s.procs[p])
  {
  }

  lemma ProcsKept(cfg: Config, s: State, step: Step, p: Pid)
    requires ShapeOk(cfg, s) && p in Next(cfg, s, step).procs
    requires IdsKept(s.db, Next(cfg, s, step).db)
    ensures ProcOk(cfg, Next(cfg, s, step).db, Next(cfg, s, step).procs[p])
  {
    if p !in s.procs {
      assert Starts(step) && Next(cfg, s, step).db == s.db;
      StartedOk(cfg, s.db, step);
    } else if Maintains(step) || Starts(step) || step.p != p {
      OthersStand(cfg, s, step, p);
      OtherProcKept(cfg, s.db, Next(cfg, s, step).db, s.procs[p]);
    } else {
      ActKeepsProc(cfg, s.db, s.procs[p], step);
    }
  }

  lemma ShapeKept(cfg: Config, s: State, step: Step)
    requires ShapeOk(cfg, s)
    ensures ShapeOk(cfg, Next(cfg, s, step))
  {
    RowsKept(cfg, s, step);
    var s' := Next(cfg, s, step);
    forall p | p in s'.procs ensures ProcOk(cfg, s'.db, s'.procs[p]) {
      ProcsKept(cfg, s, step, p);
    }
  }

  // ── Attempts, wins and tokens per contact ───────────────────────────────────

  /** Comparisons the current row still allows. */
  function Remaining(cfg: Config, db: Db, c: Contact): int {
    if c in db.challenges then cfg.maxAttempts - db.challenges[c].attempts else 0
  }

  /** Whether the current row can still be won. */
  function Open(db: Db, c: Contact): nat {
    if c in db.challenges && !db.challenges[c].consumed then 1 else 0
  }

  function MintedFor(db: Db, c: Contact): set<Jti> {
    set j | j in db.minted && db.minted[j].contact == c
  }

  /** What was charged and what the row still allows fit into what the upserts allowed. */
  ghost predicate WithinBudget(cfg: Config, db: Db, c: Contact) {
    db.charged[c] + Remaining(cfg, db, c) <= cfg.maxAttempts * db.upserts[c]
  }

  ghost predicate CountsOk(cfg: Config, s: State, c: Contact) {
    && WithinBudget(cfg, s.db, c)
    && s.db.won[c] + Open(s.db, c) <= s.db.upserts[c]
    && |MintedFor(s.db, c)| + |At(s.procs, Owed(c))| <= s.db.won[c]
  }

  ghost predicate Counts(db: Db, db': Db, c: Contact, upserts: nat, charged: nat, won: nat) {
    && db'.upserts[c] == db.upserts[c] + upserts
    && db'.charged[c] == db.charged[c] + charged
    && db'.won[c] == db.won[c] + won
  }

  /** A statement issues, charges or wins for `c`, or leaves at most what the row of `c` allowed. */
  ghost predicate CountedEffect(cfg: Config, db: Db, db': Db, c: Contact) {
    || (Counts(db, db', c, 1, 0, 0) && Remaining(cfg, db', c) == cfg.maxAttempts)
    || (&& Counts(db, db', c, 0, 1, 0)
        && Remaining(cfg, db, c) == Remaining(cfg, db', c) + 1 && Open(db', c) <= Open(db, c))
    || (&& Counts(db, db', c, 0, 0, 1)
        && Remaining(cfg, db', c) <= Remaining(cfg, db, c) && Open(db, c) == 1 && Open(db', c) == 0)
    || (Counts(db, db', c, 0, 0, 0) && Remaining(cfg, db', c) <= Remaining(cfg, db, c) && Open(db', c) <= Open(db, c))
  }

  lemma UpsertCounts(cfg: Config, db: Db, q: Proc, code: Code, c: Contact)
    ensures CountedEffect(cfg, db, UpsertAct(cfg, db, q, code).db, c)
  {
  }

  lemma ChargeCounts(cfg: Config, db: Db, q: Proc, c: Contact)
    requires RowsOk(cfg, db) && ProcOk(cfg, db, q)
    ensures CountedEffect(cfg, db, ChargeAct(cfg, db, q).db, c)
  {
  }

  lemma ConsumeCounts(cfg: Config, db: Db, q: Proc, c: Contact)
    requires RowsOk(cfg, db) && ProcOk(cfg, db, q)
    ensures CountedEffect(cfg, db, ConsumeAct(db, q).db, c)
  {
  }

  lemma OtherCounts(cfg: Config, db: Db, q: Proc, step: Step, c: Contact)
    requires RowsOk(cfg, db) && !step.Charge? && !step.Consume? && !step.UpsertChallenge?
    ensures CountedEffect(cfg, db, Act(cfg, db, q, step).db, c)
  {
    OtherRows(cfg, db, q, step);
  }

  lemma ActCounts(cfg: Config, db: Db, q: Proc, step: Step, c: Contact)
    requires RowsOk(cfg, db) && ProcOk(cfg, db, q)
    ensures CountedEffect(cfg, db, Act(cfg, db, q, step).db, c)
  {
    match step
    case Charge(_) => ChargeCounts(cfg, db, q, c);
    case Consume(_) => ConsumeCounts(cfg, db, q, c);
    case UpsertChallenge(_, code) => UpsertCounts(cfg, db, q, code, c);
    case _ => OtherCounts(cfg, db, q, step, c);
  }

  /** Another `max` for each further upsert. */
  lemma Budget(max: nat, upserts: nat, charged: nat, left: nat)
    requires charged + left <= max * upserts
    ensures charged + max <= max * (upserts + 1)
  {
  }

  lemma BudgetKept(cfg: Config, db: Db, db': Db, c: Contact)
    requires RowsOk(cfg, db) && WithinBudget(cfg, db, c) && CountedEffect(cfg, db, db', c)
    ensures WithinBudget(cfg, db', c)
  {
    if Counts(db, db', c, 1, 0, 0) {
      Budget(cfg.maxAttempts, db.upserts[c], db.charged[c], Remaining(cfg, db, c));
    }
  }

  lemma MintAdds(db: Db, token: Token, jti: Jti, c: Contact)
    requires jti !in db.minted
    ensures |MintedFor(db.(minted := db.minted[jti := token]), c)| ==
            |MintedFor(db, c)| + if token.contact == c then 1 else 0
  {
    var db' := db.(minted := db.minted[jti := token]);
    assert MintedFor(db', c) == MintedFor(db, c) + if token.contact == c then {jti} else {};
  }

  lemma MintOwes(db: Db, q: Proc, jti: Jti, c: Contact)
    ensures var o := MintAct(db, q, jti);
            o.db.won == db.won
            && |MintedFor(o.db, c)| + Weight(o.proc, Owed(c)) <= |MintedFor(db, c)| + Weight(Some(q), Owed(c))
  {
    if q.VerCleared? && jti !in db.minted {
      MintAdds(db, Token(q.contact, q.channel, db.clock + TOKEN_TTL), jti, c);
    }
  }

  lemma ConsumeOwes(db: Db, q: Proc, c: Contact)
    ensures var o := ConsumeAct(db, q);
            o.db.minted == db.minted && Weight(o.proc, Owed(c)) + db.won[c] <= Weight(Some(q), Owed(c)) + o.db.won[c]
  {
  }

  lemma OtherOwes(cfg: Config, db: Db, q: Proc, step: Step, c: Contact)
    requires !step.Mint? && !step.Consume?
    ensures Weight(Act(cfg, db, q, step).proc, Owed(c)) <= Weight(Some(q), Owed(c))
  {
  }

  lemma OtherWinsNothing(cfg: Config, db: Db, q: Proc, step: Step)
    requires !step.Mint? && !step.Consume?
    ensures var o := Act(cfg, db, q, step); o.db.minted == db.minted && o.db.won == db.won
  {
  }

  /** A token is owed for a win and paid by a mint. */
  lemma ActOwes(cfg: Config, db: Db, q: Proc, step: Step, c: Contact)
    ensures var o := Act(cfg, db, q, step);
            |MintedFor(o.db, c)| + Weight(o.proc, Owed(c)) + db.won[c]
            <= |MintedFor(db, c)| + Weight(Some(q), Owed(c)) + o.db.won[c]
  {
    if step.Mint? {
      MintOwes(db, q, step.jti, c);
    } else {
      if step.Consume? {
        ConsumeOwes(db, q, c);
      } else {
        OtherOwes(cfg, db, q, step, c);
        OtherWinsNothing(cfg, db, q, step);
      }
      assert MintedFor(Act(cfg, db, q, step).db, c) == MintedFor(db, c);
    }
  }

  lemma ActKeepsCounts(cfg: Config, s: State, step: Step, c: Contact)
    requires ShapeOk(cfg, s) && CountsOk(cfg, s, c)
    requires !Maintains(step) && !Starts(step) && step.p in s.procs
    ensures CountsOk(cfg, Next(cfg, s, step), c)
  {
    var q := s.procs[step.p];
    var o := Act(cfg, s.db, q, step);
    ActCounts(cfg, s.db, q, step, c);
    BudgetKept(cfg, s.db, o.db, c);
    ActOwes(cfg, s.db, q, step, c);
    AtAfter(s.procs, step.p, o.proc, Owed(c));
  }

  lemma PruneKeepsCounts(cfg: Config, s: State, step: Step, c: Contact)
    requires ShapeOk(cfg, s) && CountsOk(cfg, s, c) && Maintains(step)
    ensures CountsOk(cfg, Next(cfg, s, step), c)
  {
    var db' := Maintained(s.db, step);
    assert Remaining(cfg, db', c) <= Remaining(cfg, s.db, c) && Open(db', c) <= Open(s.db, c);
    assert MintedFor(db', c) == MintedFor(s.db, c);
  }

  lemma StartKeepsCounts(cfg: Config, s: State, step: Step, c: Contact)
    requires CountsOk(cfg, s, c) && Starts(step) && step.p !in s.procs
    ensures CountsOk(cfg, Next(cfg, s, step), c)
  {
    AtAfter(s.procs, step.p, Started(s.db, step), Owed(c));
  }

  lemma CountsKept(cfg: Config, s: State, step: Step, c: Contact)
    requires ShapeOk(cfg, s) && CountsOk(cfg, s, c)
    ensures CountsOk(cfg, Next(cfg, s, step), c)
  {
    if Maintains(step) {
      PruneKeepsCounts(cfg, s, step, c);
    } else if Starts(step) {
      if step.p !in s.procs {
        StartKeepsCounts(cfg, s, step, c);
      }
    } else if step.p in s.procs {
      ActKeepsCounts(cfg, s, step, c);
    }
  }

  lemma {:induction false} Conservation(cfg: Config, run: seq<Step>, c: Contact)
    ensures ShapeOk(cfg, Exec(cfg, run)) && CountsOk(cfg, Exec(cfg, run), c)
  {
    if run == [] {
      assert MintedFor(INIT.db, c) == {} && At(INIT.procs, Owed(c)) == {};
    } else {
      var before := run[..|run| - 1];
      Conservation(cfg, before, c);
      ShapeKept(cfg, Exec(cfg, before), run[|run| - 1]);
      CountsKept(cfg, Exec(cfg, before), run[|run| - 1], c);
    }
  }

  /**
   * In every run and for every contact: stored attempts never exceed the
   * configured maximum, each issue of a challenge allows at most `maxAttempts`
   * charged comparisons and at most one win, and tokens never outnumber wins.
   */
  lemma OtpConserved(cfg: Config, run: seq<Step>, c: Contact)
    ensures var db := Exec(cfg, run).db;
            && (c in db.challenges ==> db.challenges[c].attempts <= cfg.maxAttempts)
            && db.charged[c] <= cfg.maxAttempts * db.upserts[c]
            && |MintedFor(db, c)| <= db.won[c] <= db.upserts[c]
  {
    Conservation(cfg, run, c);
  }
}
