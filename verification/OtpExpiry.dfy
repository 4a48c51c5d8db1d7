// Where every challenge comes from and until when its code can match, in every
// interleaving: a row is always that of the last issue for its contact, and a
// comparison only succeeds while that issue is younger than the time to live.
module OtpExpiry {
  import opened Common
  import opened OtpConservation
  import opened OtpProtocol

  /** A code written for a contact: when its request read the clock, and when it was written. */
  datatype Issue = Issue(code: Code, channel: Channel, now: int, at: int)

  /** What the next step issues for `c`. */
  function Issues(s: State, step: Step, c: Contact): seq<Issue> {
    if step.UpsertChallenge? && step.p in s.procs && s.procs[step.p].ReqCooled? && s.procs[step.p].contact == c
    then [Issue(step.code, s.procs[step.p].channel, s.procs[step.p].now, s.db.clock)]
    else []
  }

  /** Everything issued for `c` during the run, in order. */
  function Issued(cfg: Config, run: seq<Step>, c: Contact): seq<Issue> {
    if run == [] then []
    else
      var before := run[..|run| - 1];
      Issued(cfg, before, c) + Issues(Exec(cfg, before), run[|run| - 1], c)
  }

  /** The row holds what was issued. */
  predicate RowOf(cfg: Config, c: Contact, row: Challenge, i: Issue) {
    && row.channel == i.channel && row.codeHash == cfg.hash(c, i.code) && row.maxAttempts == cfg.maxAttempts
    && row.expiresAt == i.now + cfg.ttlMs && (row.createdAt == i.now || row.createdAt == i.at)
  }

  ghost predicate RowIsLast(cfg: Config, challenges: map<Contact, Challenge>, c: Contact, issued: seq<Issue>) {
    c in challenges ==> issued != [] && RowOf(cfg, c, challenges[c], issued[|issued| - 1])
  }

  // ── Rows ────────────────────────────────────────────────────────────────────

  /** A statement other than an upsert changes nothing of a row but attempts and consumption. */
  predicate SameIssue(row: Challenge, row': Challenge) {
    row' == row.(attempts := row'.attempts, consumed := row'.consumed)
  }

  lemma ActKeepsIssue(cfg: Config, db: Db, q: Proc, step: Step, c: Contact)
    requires !step.UpsertChallenge? && c in Act(cfg, db, q, step).db.challenges
    ensures c in db.challenges && SameIssue(db.challenges[c], Act(cfg, db, q, step).db.challenges[c])
  {
    if !step.Charge? && !step.Consume? {
      OtherRows(cfg, db, q, step);
    }
  }

  lemma UpsertIssues(cfg: Config, db: Db, q: Proc, code: Code, c: Contact, issued: seq<Issue>)
    requires RowIsLast(cfg, db.challenges, c, issued)
    ensures var more := if q.ReqCooled? && q.contact == c then [Issue(code, q.channel, q.now, db.clock)] else [];
            RowIsLast(cfg, UpsertAct(cfg, db, q, code).db.challenges, c, issued + more)
  {
  }

  lemma StepKeepsRow(cfg: Config, s: State, step: Step, c: Contact, issued: seq<Issue>)
    requires RowIsLast(cfg, s.db.challenges, c, issued)
    ensures RowIsLast(cfg, Next(cfg, s, step).db.challenges, c, issued + Issues(s, step, c))
  {
    if Maintains(step) || Starts(step) || step.p !in s.procs {
      assert issued + [] == issued;
    } else if step.UpsertChallenge? {
      UpsertIssues(cfg, s.db, s.procs[step.p], step.code, c, issued);
    } else {
      assert issued + [] == issued;
      if c in Next(cfg, s, step).db.challenges {
        ActKeepsIssue(cfg, s.db, s.procs[step.p], step, c);
      }
    }
  }

  /** In every run the challenge of a contact is the one issued for it last, unless it has gone. */
  lemma {:induction false} RowIsLastIssue(cfg: Config, run: seq<Step>, c: Contact)
    ensures RowIsLast(cfg, Exec(cfg, run).db.challenges, c, Issued(cfg, run, c))
  {
    if run != [] {
      var before := run[..|run| - 1];
      RowIsLastIssue(cfg, before, c);
      StepKeepsRow(cfg, Exec(cfg, before), run[|run| - 1], c, Issued(cfg, before, c));
    }
  }

  // ── Calls and tokens ────────────────────────────────────────────────────────

  ghost predicate SentOn(issued: seq<Issue>, channel: Channel) { exists i | i in issued :: i.channel == channel }

  ghost predicate ReadFrom(cfg: Config, c: Contact, row: Challenge, issued: seq<Issue>) {
    exists i | i in issued :: RowOf(cfg, c, row, i)
  }

  /** What a verification holds was issued for its contact, on its channel. */
  ghost predicate Founded(cfg: Config, q: Proc, c: Contact, issued: seq<Issue>) {
    && (q.VerRead? && q.contact == c ==> q.snap.channel == q.channel && ReadFrom(cfg, c, q.snap, issued))
    && ((q.VerMatched? || q.VerWon? || q.VerCleared?) && q.contact == c ==> SentOn(issued, q.channel))
  }

  ghost predicate AllFounded(cfg: Config, s: State, c: Contact, issued: seq<Issue>) {
    && (forall p | p in s.procs :: Founded(cfg, s.procs[p], c, issued))
    && (forall j | j in s.db.minted && s.db.minted[j].contact == c :: SentOn(issued, s.db.minted[j].channel))
  }

  lemma FoundedLonger(cfg: Config, q: Proc, c: Contact, issued: seq<Issue>, more: seq<Issue>)
    requires Founded(cfg, q, c, issued)
    ensures Founded(cfg, q, c, issued + more)
  {
    if q.VerRead? && q.contact == c {
      var i :| i in issued && RowOf(cfg, c, q.snap, i);
      assert i in issued + more;
    } else if (q.VerMatched? || q.VerWon? || q.VerCleared?) && q.contact == c {
      SentLonger(issued, more, q.channel);
    }
  }

  lemma SentLonger(issued: seq<Issue>, more: seq<Issue>, channel: Channel)
    requires SentOn(issued, channel)
    ensures SentOn(issued + more, channel)
  {
    var i :| i in issued && i.channel == channel;
    assert i in issued + more;
  }

  lemma ActFounded(cfg: Config, db: Db, q: Proc, step: Step, c: Contact, issued: seq<Issue>)
    requires Founded(cfg, q, c, issued)
    ensures var o := Act(cfg, db, q, step); o.proc.Some? ==> Founded(cfg, o.proc.value, c, issued)
  {
  }

  lemma ActMints(cfg: Config, db: Db, q: Proc, step: Step, jti: Jti)
    ensures var o := Act(cfg, db, q, step);
            jti in o.db.minted ==>
              || (jti in db.minted && o.db.minted[jti] == db.minted[jti])
              || (q.VerCleared? && o.db.minted[jti] == Token(q.contact, q.channel, db.clock + 900_000))
  {
  }

  lemma StartFounded(cfg: Config, db: Db, step: Step, c: Contact, issued: seq<Issue>)
    requires Starts(step) && RowIsLast(cfg, db.challenges, c, issued)
    ensures Started(db, step).Some? ==> Founded(cfg, Started(db, step).value, c, issued)
  {
  }

  lemma ProcFounded(cfg: Config, s: State, step: Step, p: Pid, c: Contact, issued: seq<Issue>)
    requires AllFounded(cfg, s, c, issued) && RowIsLast(cfg, s.db.challenges, c, issued)
    requires p in Next(cfg, s, step).procs
    ensures Founded(cfg, Next(cfg, s, step).procs[p], c, issued)
  {
    if p !in s.procs {
      assert Starts(step);
      StartFounded(cfg, s.db, step, c, issued);
    } else if Maintains(step) || Starts(step) || step.p != p {
      OthersStand(cfg, s, step, p);
    } else {
      ActFounded(cfg, s.db, s.procs[p], step, c, issued);
    }
  }

  lemma TokenFounded(cfg: Config, s: State, step: Step, jti: Jti, c: Contact, issued: seq<Issue>)
    requires AllFounded(cfg, s, c, issued)
    requires jti in Next(cfg, s, step).db.minted && Next(cfg, s, step).db.minted[jti].contact == c
    ensures SentOn(issued, Next(cfg, s, step).db.minted[jti].channel)
  {
    if !Maintains(step) && !Starts(step) && step.p in s.procs {
      ActMints(cfg, s.db, s.procs[step.p], step, jti);
      assert Founded(cfg, s.procs[step.p], c, issued);
    }
  }

  lemma StepFounded(cfg: Config, s: State, step: Step, c: Contact, issued: seq<Issue>)
    requires AllFounded(cfg, s, c, issued) && RowIsLast(cfg, s.db.challenges, c, issued)
    ensures AllFounded(cfg, Next(cfg, s, step), c, issued + Issues(s, step, c))
  {
    var s' := Next(cfg, s, step);
    forall p | p in s'.procs ensures Founded(cfg, s'.procs[p], c, issued + Issues(s, step, c)) {
      ProcFounded(cfg, s, step, p, c, issued);
      FoundedLonger(cfg, s'.procs[p], c, issued, Issues(s, step, c));
    }
    forall j | j in s'.db.minted && s'.db.minted[j].contact == c
      ensures SentOn(issued + Issues(s, step, c), s'.db.minted[j].channel)
    {
      TokenFounded(cfg, s, step, j, c, issued);
      SentLonger(issued, Issues(s, step, c), s'.db.minted[j].channel);
    }
  }

  lemma {:induction false} EverythingFounded(cfg: Config, run: seq<Step>, c: Contact)
    ensures AllFounded(cfg, Exec(cfg, run), c, Issued(cfg, run, c))
  {
    if run != [] {
      var before := run[..|run| - 1];
      EverythingFounded(cfg, before, c);
      RowIsLastIssue(cfg, before, c);
      StepFounded(cfg, Exec(cfg, before), run[|run| - 1], c, Issued(cfg, before, c));
    }
  }

  /** A token is only ever minted for a contact and a channel on which a code was issued for it. */
  lemma TokenNeedsIssue(cfg: Config, run: seq<Step>, jti: Jti)
    requires jti in Exec(cfg, run).db.minted
    ensures var token := Exec(cfg, run).db.minted[jti];
            exists i | i in Issued(cfg, run, token.contact) :: i.channel == token.channel
  {
    EverythingFounded(cfg, run, Exec(cfg, run).db.minted[jti].contact);
  }

  // ── Until when a code can match ─────────────────────────────────────────────

  /** The next step is a charge, and the comparison after it succeeds. */
  ghost predicate Matches(cfg: Config, s: State, p: Pid) {
    && p in s.procs && s.procs[p].VerRead?
    && Running(Next(cfg, s, Charge(p)).procs, p).Some? && Next(cfg, s, Charge(p)).procs[p].VerMatched?
  }

  lemma MatchCharges(cfg: Config, s: State, p: Pid)
    requires ShapeOk(cfg, s) && Matches(cfg, s, p)
    ensures var q, t := s.procs[p], Next(cfg, s, Charge(p));
            && cfg.hash(q.contact, q.code) == q.snap.codeHash && q.contact in s.db.challenges
            && var row := s.db.challenges[q.contact];
            && !row.consumed && s.db.clock < row.expiresAt && row.attempts < cfg.maxAttempts
            && t.db.challenges == s.db.challenges[q.contact := row.(attempts := row.attempts + 1)]
  {
    var q := s.procs[p];
    assert ProcOk(cfg, s.db, q);
    var d :| d in s.db.challenges && Chargeable(s.db.challenges[d], q.snap.id, s.db.clock, q.snap.maxAttempts);
    assert d == q.contact;
  }

  /** The code entered was issued for the contact, on the channel asked for. */
  ghost predicate WasIssued(cfg: Config, c: Contact, channel: Channel, code: Code, issued: seq<Issue>) {
    exists i | i in issued :: i.channel == channel && cfg.hash(c, i.code) == cfg.hash(c, code)
  }

  lemma MatchWasIssued(cfg: Config, s: State, p: Pid, c: Contact, issued: seq<Issue>)
    requires ShapeOk(cfg, s) && Matches(cfg, s, p) && s.procs[p].contact == c && AllFounded(cfg, s, c, issued)
    ensures WasIssued(cfg, c, s.procs[p].channel, s.procs[p].code, issued)
  {
    MatchCharges(cfg, s, p);
    assert Founded(cfg, s.procs[p], c, issued);
    var i :| i in issued && RowOf(cfg, c, s.procs[p].snap, i);
  }

  /** `c` has an unconsumed challenge with a guess left, that of the last issue, and the issue is young enough. */
  ghost predicate FromYoungIssue(cfg: Config, db: Db, c: Contact, issued: seq<Issue>) {
    && c in db.challenges && !db.challenges[c].consumed && db.challenges[c].attempts < cfg.maxAttempts
    && issued != [] && RowOf(cfg, c, db.challenges[c], issued[|issued| - 1])
    && db.clock < issued[|issued| - 1].now + cfg.ttlMs
  }

  lemma MatchIsYoung(cfg: Config, s: State, p: Pid, c: Contact, issued: seq<Issue>)
    requires ShapeOk(cfg, s) && Matches(cfg, s, p) && s.procs[p].contact == c
    requires RowIsLast(cfg, s.db.challenges, c, issued)
    ensures FromYoungIssue(cfg, s.db, c, issued)
    ensures var row := s.db.challenges[c];
            Next(cfg, s, Charge(p)).db.challenges == s.db.challenges[c := row.(attempts := row.attempts + 1)]
  {
    MatchCharges(cfg, s, p);
  }

  /** What a successful comparison says, given what was issued for its contact. */
  ghost predicate MatchedInTime(cfg: Config, s: State, p: Pid, issued: seq<Issue>)
    requires p in s.procs && s.procs[p].VerRead?
  {
    var q := s.procs[p];
    && WasIssued(cfg, q.contact, q.channel, q.code, issued)
    && FromYoungIssue(cfg, s.db, q.contact, issued)
    && var row := s.db.challenges[q.contact];
    Next(cfg, s, Charge(p)).db.challenges == s.db.challenges[q.contact := row.(attempts := row.attempts + 1)]
  }

  ghost predicate AllInOrder(cfg: Config, s: State, c: Contact, issued: seq<Issue>) {
    ShapeOk(cfg, s) && RowIsLast(cfg, s.db.challenges, c, issued) && AllFounded(cfg, s, c, issued)
  }

  lemma EveryRunInOrder(cfg: Config, run: seq<Step>, c: Contact)
    ensures AllInOrder(cfg, Exec(cfg, run), c, Issued(cfg, run, c))
  {
    Conservation(cfg, run, c);
    RowIsLastIssue(cfg, run, c);
    EverythingFounded(cfg, run, c);
  }

  lemma MatchInOrder(cfg: Config, s: State, p: Pid, c: Contact, issued: seq<Issue>)
    requires Matches(cfg, s, p) && s.procs[p].contact == c && AllInOrder(cfg, s, c, issued)
    ensures MatchedInTime(cfg, s, p, issued)
  {
    MatchWasIssued(cfg, s, p, c, issued);
    MatchIsYoung(cfg, s, p, c, issued);
  }

  /**
   * In every run, whenever a comparison succeeds: the code entered was issued for
   * the contact, on the channel asked for; the contact has a challenge, it alone is
   * charged one attempt, and it is that of the last issue, whose request read the
   * clock less than `ttlMs` before.
   */
  lemma MatchInTime(cfg: Config, run: seq<Step>, p: Pid)
    requires Matches(cfg, Exec(cfg, run), p)
    ensures MatchedInTime(cfg, Exec(cfg, run), p, Issued(cfg, run, Exec(cfg, run).procs[p].contact))
  {
    var s, c := Exec(cfg, run), Exec(cfg, run).procs[p].contact;
    EveryRunInOrder(cfg, run, c);
    MatchInOrder(cfg, s, p, c, Issued(cfg, run, c));
  }
}
