// Which code a successful verification was for. The comparison uses the row as it
// was read, the charge and the consume go by its id, and a re-issue keeps the id:
// a code that has been superseded in between can still win the new challenge.
module OtpStaleCode {
  import opened Common
  import opened OtpConservation
  import opened OtpLateCommit
  import opened OtpProtocol
  import opened OtpRuns
  import opened OtpService

  // ── Following a row through a run ───────────────────────────────────────────

  predicate Reissues(s: State, step: Step, c: Contact) {
    step.UpsertChallenge? && step.p in s.procs && s.procs[step.p].ReqCooled? && s.procs[step.p].contact == c
  }

  /** The code of the last challenge issued for `c` during the steps, if any. */
  function LastIssued(cfg: Config, s: State, steps: seq<Step>, c: Contact, sofar: Option<Code>): Option<Code>
    decreases |steps|
  {
    if steps == [] then sofar
    else LastIssued(cfg, Next(cfg, s, steps[0]), steps[1..], c,
                    if Reissues(s, steps[0], c) then Some(steps[0].code) else sofar)
  }

  function HashOf(cfg: Config, c: Contact, row: Challenge, issued: Option<Code>): Digest {
    if issued.Some? then cfg.hash(c, issued.value) else row.codeHash
  }

  /** The id is in use or has been; if a row carries it, it is the row of `c`, with this hash. */
  ghost predicate Tracks(db: Db, c: Contact, id: nat, h: Digest) {
    && id < db.nextId
    && forall d | d in db.challenges && db.challenges[d].id == id :: d == c && db.challenges[d].codeHash == h
  }

  /** A statement other than an upsert leaves the hash of every row it leaves. */
  lemma ActKeepsHashes(cfg: Config, db: Db, q: Proc, step: Step, d: Contact)
    requires !step.UpsertChallenge? && d in Act(cfg, db, q, step).db.challenges
    ensures var o := Act(cfg, db, q, step);
            && o.db.nextId == db.nextId && d in db.challenges
            && o.db.challenges[d].id == db.challenges[d].id && o.db.challenges[d].codeHash == db.challenges[d].codeHash
  {
    if !step.Charge? && !step.Consume? {
      OtherRows(cfg, db, q, step);
    }
  }

  lemma ActTracks(cfg: Config, db: Db, q: Proc, step: Step, c: Contact, id: nat, h: Digest)
    requires !step.UpsertChallenge? && Tracks(db, c, id, h)
    ensures Tracks(Act(cfg, db, q, step).db, c, id, h)
  {
    var o := Act(cfg, db, q, step);
    forall d | d in o.db.challenges && o.db.challenges[d].id == id ensures d == c && o.db.challenges[d].codeHash == h {
      ActKeepsHashes(cfg, db, q, step, d);
    }
    if !step.Charge? && !step.Consume? {
      OtherRows(cfg, db, q, step);
    }
  }

  /** An upsert under the id sets the hash of its code; a new row gets another id. */
  lemma UpsertTracks(cfg: Config, db: Db, q: Proc, code: Code, c: Contact, id: nat, h: Digest)
    requires Tracks(db, c, id, h)
    ensures Tracks(UpsertAct(cfg, db, q, code).db, c, id,
                   if q.ReqCooled? && q.contact == c then cfg.hash(c, code) else h)
  {
  }

  lemma StepTracks(cfg: Config, s: State, step: Step, c: Contact, id: nat, h: Digest)
    requires Tracks(s.db, c, id, h)
    ensures Tracks(Next(cfg, s, step).db, c, id, if Reissues(s, step, c) then cfg.hash(c, step.code) else h)
  {
    if !Maintains(step) && !Starts(step) && step.p in s.procs {
      if step.UpsertChallenge? {
        UpsertTracks(cfg, s.db, s.procs[step.p], step.code, c, id, h);
      } else {
        ActTracks(cfg, s.db, s.procs[step.p], step, c, id, h);
      }
    }
  }

  lemma {:induction false} StepsTrack(cfg: Config, s: State, steps: seq<Step>, c: Contact, row: Challenge,
          issued: Option<Code>)
    requires Tracks(s.db, c, row.id, HashOf(cfg, c, row, issued))
    ensures Tracks(Steps(cfg, s, steps).db, c, row.id, HashOf(cfg, c, row, LastIssued(cfg, s, steps, c, issued)))
    decreases |steps|
  {
    if steps != [] {
      var next := Next(cfg, s, steps[0]);
      StepTracks(cfg, s, steps[0], c, row.id, HashOf(cfg, c, row, issued));
      StepsTrack(cfg, next, steps[1..], c, row, if Reissues(s, steps[0], c) then Some(steps[0].code) else issued);
    }
  }

  // ── Following a verification ────────────────────────────────────────────────

  /** If the call is before its charge or has matched, it did so with this code and this reading. */
  predicate Holds(cfg: Config, q: Option<Proc>, u: Caller, row: Challenge) {
    && (q.Some? && q.value.VerRead? ==> q.value == VerRead(u.contact, u.channel, u.code, row))
    && (q.Some? && q.value.VerMatched? ==>
          q.value == VerMatched(u.contact, u.channel, row.id) && cfg.hash(u.contact, u.code) == row.codeHash)
  }

  lemma ActHolds(cfg: Config, db: Db, q: Proc, step: Step, u: Caller, row: Challenge)
    requires Holds(cfg, Some(q), u, row)
    ensures Holds(cfg, Act(cfg, db, q, step).proc, u, row)
  {
    if !step.Charge? {
      OtherHoldsNothing(cfg, db, q, step);
    }
  }

  lemma StepHolds(cfg: Config, s: State, step: Step, p: Pid, u: Caller, row: Challenge)
    requires Holds(cfg, Running(s.procs, p), u, row) && !(Starts(step) && step.p == p)
    ensures Holds(cfg, Running(Next(cfg, s, step).procs, p), u, row)
  {
    if !Maintains(step) && !Starts(step) && step.p in s.procs && step.p == p {
      ActHolds(cfg, s.db, s.procs[p], step, u, row);
    }
  }

  /** No other call begins under the same number. */
  ghost predicate SameCall(steps: seq<Step>, p: Pid) {
    forall i | 0 <= i < |steps| :: !(Starts(steps[i]) && steps[i].p == p)
  }

  lemma {:induction false} StepsHold(cfg: Config, s: State, steps: seq<Step>, p: Pid, u: Caller, row: Challenge)
    requires Holds(cfg, Running(s.procs, p), u, row) && SameCall(steps, p)
    ensures Holds(cfg, Running(Steps(cfg, s, steps).procs, p), u, row)
    decreases |steps|
  {
    if steps != [] {
      StepHolds(cfg, s, steps[0], p, u, row);
      StepsHold(cfg, Next(cfg, s, steps[0]), steps[1..], p, u, row);
    }
  }

  // ── What a win was for ──────────────────────────────────────────────────────

  /** A verification that read its row in `s` and, after the steps, would win with its consume. */
  ghost predicate Wins(cfg: Config, s: State, steps: seq<Step>, p: Pid, u: Caller) {
    var read := ReadChallenge(p, u.contact, u.channel, u.code);
    var t := Steps(cfg, Next(cfg, s, read), steps);
    && p !in s.procs && Started(s.db, read).Some? && SameCall(steps, p)
    && Running(t.procs, p).Some? && t.procs[p].VerMatched?
    && exists d | d in t.db.challenges :: Consumable(t.db.challenges[d], t.procs[p].id)
  }

  /**
   * A win consumes the contact's current challenge. The winning code is the code of
   * that challenge exactly if none was issued for the contact between reading and
   * consuming, or the last one has the same keyed hash.
   */
  lemma WinIsForItsCodeIff(cfg: Config, run: seq<Step>, steps: seq<Step>, p: Pid, u: Caller)
    requires Wins(cfg, Exec(cfg, run), steps, p, u)
    ensures var read := Next(cfg, Exec(cfg, run), ReadChallenge(p, u.contact, u.channel, u.code));
            var t, issued := Steps(cfg, read, steps), LastIssued(cfg, read, steps, u.contact, None);
            && u.contact in t.db.challenges && Consumable(t.db.challenges[u.contact], t.procs[p].id)
            && (t.db.challenges[u.contact].codeHash == cfg.hash(u.contact, u.code)
                <==> issued.None? || cfg.hash(u.contact, issued.value) == cfg.hash(u.contact, u.code))
  {
    var s := Exec(cfg, run);
    var row := s.db.challenges[u.contact];
    var read := Next(cfg, s, ReadChallenge(p, u.contact, u.channel, u.code));
    Conservation(cfg, run, u.contact);
    assert Tracks(read.db, u.contact, row.id, HashOf(cfg, u.contact, row, None));
    StepsTrack(cfg, read, steps, u.contact, row, None);
    StepsHold(cfg, read, steps, p, u, row);
  }

  // ── A superseded code wins ──────────────────────────────────────────────────

  function FreshRow(cfg: Config, u: Caller, code: Code, now: int): Challenge {
    Challenge(0, u.channel, cfg.hash(u.contact, code), 0, cfg.maxAttempts, now + cfg.ttlMs, false, now)
  }

  function Reading(u: Caller, row: Challenge): map<Pid, Proc> { map[1 := VerRead(u.contact, u.channel, u.code, row)] }

  /** What the tables hold between the two requests. */
  ghost predicate IssuedOnce(cfg: Config, s: State, u: Caller, now: int) {
    && s.db.challenges == map[u.contact := FreshRow(cfg, u, u.code, 0)]
    && s.db.issuances == [Issuance(u.contact, 0)] && s.db.nextId == 1 && s.db.clock == now
  }

  lemma IssueOnce(cfg: Config, u: Caller) returns (run: seq<Step>, s: State)
    requires Deployed(cfg)
    ensures Reaches(cfg, run, s) && s.procs == map[] && IssuedOnce(cfg, s, u, 0)
  {
    run, s := RequestOnce(cfg, 0, u);
    assert !OverCap(cfg, [], u.contact, 0);
  }

  /** A verification reads the row and hangs. */
  lemma ReadAndWait(cfg: Config, u: Caller, wait: nat) returns (run: seq<Step>, s: State)
    requires Deployed(cfg)
    ensures Reaches(cfg, run, s) && s.procs == Reading(u, FreshRow(cfg, u, u.code, 0)) && IssuedOnce(cfg, s, u, wait)
  {
    var first;
    run, first := IssueOnce(cfg, u);
    var step := ReadChallenge(1, u.contact, u.channel, u.code);
    var read := first.(procs := Reading(u, FreshRow(cfg, u, u.code, 0)));
    ReachNext(cfg, run, first, step);
    assert Next(cfg, first, step) == read;
    ReachNext(cfg, run + [step], read, Tick(wait));
    run := run + [step] + [Tick(wait)];
    s := read.(db := read.db.(clock := wait));
  }

  /** Meanwhile a second code is issued. */
  lemma ReadThenReissue(cfg: Config, u: Caller, code: Code, wait: nat) returns (run: seq<Step>, s: State)
    requires Deployed(cfg) && wait >= cfg.cooldownMs && !OverCap(cfg, [Issuance(u.contact, 0)], u.contact, wait)
    ensures Reaches(cfg, run, s) && s.procs == Reading(u, FreshRow(cfg, u, u.code, 0))
    ensures s.db.challenges == map[u.contact := FreshRow(cfg, u, code, wait)] && s.db.clock == wait
  {
    var later;
    run, later := ReadAndWait(cfg, u, wait);
    var again := [BeginRequest(0, u.contact, u.channel)] + RequestSteps(0, code, true);
    RequestIsARun(cfg, later, 0, u.contact, u.channel, code, true);
    QuietSteps(cfg, 0, later, again);
    ReachSteps(cfg, run, later, again);
    run, s := run + again, Steps(cfg, later, again);
    Reissued(cfg, later.db, s.db, u, code, wait);
  }

  lemma Reissued(cfg: Config, db: Db, db': Db, u: Caller, code: Code, wait: nat)
    requires IssuedOnce(cfg, State(db, map[]), u, wait)
    requires wait >= cfg.cooldownMs && !OverCap(cfg, db.issuances, u.contact, wait)
    requires TablesOf(db') == AfterRequest(cfg, TablesOf(db), u.contact, u.channel, wait, code, true).0
    ensures db'.challenges == map[u.contact := FreshRow(cfg, u, code, wait)]
  {
  }

  /** Charged on the new row, matched against the old one. */
  lemma OldCodeMatches(cfg: Config, s: State, u: Caller, row: Challenge)
    requires s.procs == map[1 := VerRead(u.contact, u.channel, u.code, row)]
    requires row.id == 0 && row.codeHash == cfg.hash(u.contact, u.code) && u.contact in s.db.challenges
    requires Chargeable(s.db.challenges[u.contact], 0, s.db.clock, row.maxAttempts)
    ensures var t := Next(cfg, s, Charge(1));
            && t.procs == map[1 := VerMatched(u.contact, u.channel, 0)]
            && u.contact in t.db.challenges && Consumable(t.db.challenges[u.contact], 0)
            && t.db.challenges[u.contact].codeHash == s.db.challenges[u.contact].codeHash
  {
  }

  /**
   * For any two codes: a verification that read before the second was issued, as
   * soon as cooldown and caps allow, consumes the second challenge with the first code.
   */
  lemma SupersededCodeWins(cfg: Config, u: Caller, code: Code, wait: nat) returns (run: seq<Step>)
    requires Deployed(cfg) && wait >= cfg.cooldownMs && !OverCap(cfg, [Issuance(u.contact, 0)], u.contact, wait)
    ensures var s, t := Exec(cfg, run), Exec(cfg, run + [Consume(1)]);
            && Running(s.procs, 1) == Some(VerMatched(u.contact, u.channel, 0))
            && u.contact in s.db.challenges && s.db.challenges[u.contact].codeHash == cfg.hash(u.contact, code)
            && Running(t.procs, 1) == Some(VerWon(u.contact, u.channel, 0))
  {
    var s;
    run, s := ReadThenReissue(cfg, u, code, wait);
    OldCodeMatches(cfg, s, u, FreshRow(cfg, u, u.code, 0));
    ReachNext(cfg, run, s, Charge(1));
    var t := Next(cfg, s, Charge(1));
    run := run + [Charge(1)];
    ReachNext(cfg, run, t, Consume(1));
    NowConsumes(cfg, t, u);
  }

  lemma NowConsumes(cfg: Config, t: State, u: Caller)
    requires t.procs == map[1 := VerMatched(u.contact, u.channel, 0)]
    requires u.contact in t.db.challenges && Consumable(t.db.challenges[u.contact], 0)
    ensures Running(Next(cfg, t, Consume(1)).procs, 1) == Some(VerWon(u.contact, u.channel, 0))
  {
  }
}
