// The OTP service as it is written: one object over its tables, whose calls run
// statement after statement. Each call is proved against a description of its
// whole effect, and that description is what the interleaved protocol does when
// nothing else runs in between.
module OtpService {
  import opened Common
  import opened OtpProtocol

  datatype Tables = Tables(
    nextId: nat,
    challenges: map<Contact, Challenge>,
    issuances: seq<Issuance>,
    used: map<Jti, int>)

  function TablesOf(db: Db): Tables { Tables(db.nextId, db.challenges, db.issuances, db.used) }

  datatype RequestResult = Sent | TooMany | Undeliverable

  /** Rows have distinct ids, all handed out already. */
  ghost predicate IdsOk(challenges: map<Contact, Challenge>, nextId: nat) {
    && (forall c | c in challenges :: challenges[c].id < nextId)
    && (forall c, d | c in challenges && d in challenges && challenges[c].id == challenges[d].id :: c == d)
  }

  /** The row a request leaves behind. */
  function IssuedRow(cfg: Config, t: Tables, c: Contact, channel: Channel, now: int, code: Code): Challenge {
    Challenge(if c in t.challenges then t.challenges[c].id else t.nextId,
              channel, cfg.hash(c, code), 0, cfg.maxAttempts, now + cfg.ttlMs, false, now)
  }

  /** What a request that is let through leaves: a failed delivery keeps the issuance but no challenge. */
  function AfterIssue(cfg: Config, t: Tables, c: Contact, channel: Channel, now: int, code: Code, delivered: bool)
    : Tables
  {
    Tables(if c in t.challenges then t.nextId else t.nextId + 1,
           if delivered then t.challenges[c := IssuedRow(cfg, t, c, channel, now, code)] else t.challenges - {c},
           t.issuances + [Issuance(c, now)],
           t.used)
  }

  /** A refused request changes nothing. */
  function AfterRequest(cfg: Config, t: Tables, c: Contact, channel: Channel, now: int, code: Code, delivered: bool)
    : (Tables, RequestResult)
  {
    if OverCap(cfg, t.issuances, c, now) || CoolingDown(cfg, t.challenges, c, now) then (t, TooMany)
    else (AfterIssue(cfg, t, c, channel, now, code, delivered), if delivered then Sent else Undeliverable)
  }

  predicate Live(row: Challenge, now: int) {
    !row.consumed && row.expiresAt > now && row.attempts < row.maxAttempts
  }

  /** Success removes the challenge, a dead challenge is removed too, a wrong code costs one attempt. */
  function AfterVerify(cfg: Config, t: Tables, c: Contact, channel: Channel, now: int, code: Code)
    : (Tables, Option<Token>)
  {
    if c !in t.challenges || t.challenges[c].channel != channel then (t, None)
    else
      var row := t.challenges[c];
      if !Live(row, now) then (t.(challenges := t.challenges - {c}), None)
      else if cfg.hash(c, code) != row.codeHash
      then (t.(challenges := t.challenges[c := row.(attempts := row.attempts + 1)]), None)
      else (t.(challenges := t.challenges - {c}), Some(Token(c, channel, now + TOKEN_TTL)))
  }

  /** What the hourly job leaves: challenges until an hour after expiry, nonces until theirs, issuances of two days. */
  function AfterPrune(t: Tables, now: int): Tables {
    t.(challenges := map c | c in t.challenges && t.challenges[c].expiresAt >= now - HOUR :: t.challenges[c],
       issuances := PrunedLog(t.issuances, now),
       used := map j | j in t.used && t.used[j] >= now :: t.used[j])
  }

  /** Deleting by the id of one row deletes that row. */
  lemma DeleteOwn(challenges: map<Contact, Challenge>, nextId: nat, c: Contact)
    requires IdsOk(challenges, nextId) && c in challenges
    ensures DeleteById(challenges, challenges[c].id) == challenges - {c}
  {
  }

  class OtpService {
    const cfg: Config
    var nextId: nat
    var challenges: map<Contact, Challenge>
    var issuances: seq<Issuance>
    var used: map<Jti, int>

    ghost predicate Valid()
      reads this
    {
      IdsOk(challenges, nextId)
    }

    function Stored(): Tables
      reads this
    {
      Tables(nextId, challenges, issuances, used)
    }

    constructor (cfg: Config)
      ensures Valid() && this.cfg == cfg && Stored() == TablesOf(INIT.db)
    {
      this.cfg := cfg;
      nextId, challenges, issuances, used := 0, map[], [], map[];
    }

    method Request(c: Contact, channel: Channel, now: int, code: Code, delivered: bool) returns (r: RequestResult)
      requires Valid()
      modifies this
      ensures Valid()
      ensures (Stored(), r) == AfterRequest(cfg, old(Stored()), c, channel, now, code, delivered)
    {
      if OverCap(cfg, issuances, c, now) {
        return TooMany;
      }
      if c in challenges && now - challenges[c].createdAt < cfg.cooldownMs {
        return TooMany;
      }
      Issue(c, channel, now, code, delivered);
      return if delivered then Sent else Undeliverable;
    }

    /** Upsert, issuance and delivery. */
    method Issue(c: Contact, channel: Channel, now: int, code: Code, delivered: bool)
      requires Valid()
      modifies this
      ensures Valid()
      ensures Stored() == AfterIssue(cfg, old(Stored()), c, channel, now, code, delivered)
    {
      var challengeId := Upsert(c, channel, now, code);
      issuances := issuances + [Issuance(c, now)];
      if !delivered {
        DeleteChallenge(c, challengeId);
        assert challenges == old(challenges) - {c};
      }
    }

    /** `deleteMany(id)`, after a failed delivery, of a dead challenge, or of a won one. */
    method DeleteChallenge(c: Contact, id: nat)
      requires Valid() && c in challenges && challenges[c].id == id
      modifies this`challenges
      ensures Valid() && challenges == old(challenges) - {c}
    {
      DeleteOwn(challenges, nextId, c);
      challenges := DeleteById(challenges, id);
    }

    /** The upsert keyed on the contact: an existing row keeps its id. */
    method Upsert(c: Contact, channel: Channel, now: int, code: Code) returns (id: nat)
      requires Valid()
      modifies this`challenges, this`nextId
      ensures Valid()
      ensures c in challenges && id == challenges[c].id
      ensures id == if c in old(challenges) then old(challenges[c]).id else old(nextId)
      ensures challenges == old(challenges)[c := IssuedRow(cfg, old(Stored()), c, channel, now, code)]
      ensures nextId == if c in old(challenges) then old(nextId) else old(nextId) + 1
    {
      if c in challenges {
        var row := challenges[c];
        challenges := challenges[c := row.(channel := channel, codeHash := cfg.hash(c, code), attempts := 0,
                                           maxAttempts := cfg.maxAttempts, expiresAt := now + cfg.ttlMs,
                                           consumed := false, createdAt := now)];
      } else {
        challenges := challenges[c := Challenge(nextId, channel, cfg.hash(c, code), 0, cfg.maxAttempts,
                                                now + cfg.ttlMs, false, now)];
        nextId := nextId + 1;
      }
      id := challenges[c].id;
    }

    method Verify(c: Contact, channel: Channel, now: int, code: Code) returns (token: Option<Token>)
      requires Valid()
      modifies this
      ensures Valid()
      ensures (Stored(), token) == AfterVerify(cfg, old(Stored()), c, channel, now, code)
    {
      if c !in challenges || challenges[c].channel != channel {
        return None;
      }
      var challenge := challenges[c];
      var charged := ChargeAttempt(c, challenge.id, challenge.maxAttempts, now);
      if charged == 0 {
        DeleteChallenge(c, challenge.id);
        return None;
      }
      if cfg.hash(c, code) != challenge.codeHash {
        return None;
      }
      var won := Win(c, challenge.id);
      assert won && challenges == old(challenges) - {c};
      return if won then Some(Token(c, channel, now + TOKEN_TTL)) else None;
    }

    /** Consumes the challenge and removes it, unless someone else has consumed it. */
    method Win(c: Contact, id: nat) returns (won: bool)
      requires Valid() && c in challenges && challenges[c].id == id
      modifies this`challenges
      ensures Valid() && won == !old(challenges[c]).consumed
      ensures won ==> challenges == old(challenges) - {c}
    {
      var consumed := ConsumeChallenge(c, id);
      if consumed != 1 {
        return false;
      }
      DeleteChallenge(c, id);
      assert challenges == old(challenges) - {c};
      return true;
    }

    /** Charges one attempt if the row is live; reports the number of rows changed. */
    method ChargeAttempt(c: Contact, id: nat, maxAttempts: nat, now: int) returns (count: nat)
      requires Valid() && c in challenges && challenges[c].id == id && challenges[c].maxAttempts == maxAttempts
      modifies this`challenges
      ensures Valid() && c in old(challenges)
      ensures var row := old(challenges[c]);
              count == if !row.consumed && now < row.expiresAt && row.attempts < row.maxAttempts then 1 else 0
      ensures challenges
              == if count == 0 then old(challenges)
                 else old(challenges)[c := old(challenges[c]).(attempts := old(challenges[c]).attempts + 1)]
    {
      count := if exists d | d in challenges :: Chargeable(challenges[d], id, now, maxAttempts) then 1 else 0;
      assert Chargeable(challenges[c], id, now, maxAttempts) == Live(challenges[c], now);
      challenges := ChargeRows(challenges, id, now, maxAttempts);
    }

    /** Marks the row consumed if it is not; reports the number of rows changed. */
    method ConsumeChallenge(c: Contact, id: nat) returns (count: nat)
      requires Valid() && c in challenges && challenges[c].id == id
      modifies this`challenges
      ensures Valid() && c in old(challenges)
      ensures count == if old(challenges[c]).consumed then 0 else 1
      ensures challenges == old(challenges)[c := old(challenges[c]).(consumed := true)]
    {
      count := if exists d | d in challenges :: Consumable(challenges[d], id) then 1 else 0;
      assert Consumable(challenges[c], id) == !challenges[c].consumed;
      challenges := ConsumeRows(challenges, id);
    }

    method PruneOtpArtifacts(now: int)
      requires Valid()
      modifies this
      ensures Valid() && Stored() == AfterPrune(old(Stored()), now)
    {
      challenges := map c | c in challenges && !(challenges[c].expiresAt < now - HOUR) :: challenges[c];
      used := map j | j in used && !(used[j] < now) :: used[j];
      issuances := PrunedLog(issuances, now);
    }
  }

  // ── The calls as runs of the protocol ───────────────────────────────────────

  /** Steps taken one after the other. */
  function Steps(cfg: Config, s: State, steps: seq<Step>): State
    decreases |steps|
  {
    if steps == [] then s else Steps(cfg, Next(cfg, s, steps[0]), steps[1..])
  }

  predicate IsStepOf(step: Step, p: Pid) { !Maintains(step) && !Starts(step) && step.p == p }

  /** The statements of one call, nothing else running. */
  function Alone(cfg: Config, db: Db, q: Option<Proc>, steps: seq<Step>): Outcome
    decreases |steps|
  {
    if steps == [] || q == None then Outcome(db, q)
    else
      var o := Act(cfg, db, q.value, steps[0]);
      Alone(cfg, o.db, o.proc, steps[1..])
  }

  lemma {:induction false} AloneIsSteps(cfg: Config, db: Db, procs: map<Pid, Proc>, p: Pid, q: Option<Proc>,
          steps: seq<Step>)
    requires forall i | 0 <= i < |steps| :: IsStepOf(steps[i], p)
    ensures var o := Alone(cfg, db, q, steps);
            Steps(cfg, State(db, SetProc(procs, p, q)), steps) == State(o.db, SetProc(procs, p, o.proc))
    decreases |steps|
  {
    if steps != [] {
      var s := State(db, SetProc(procs, p, q));
      if q.Some? {
        var o := Act(cfg, db, q.value, steps[0]);
        assert SetProc(s.procs, p, o.proc) == SetProc(procs, p, o.proc);
        AloneIsSteps(cfg, o.db, procs, p, o.proc, steps[1..]);
      } else {
        assert Next(cfg, s, steps[0]) == s;
        AloneIsSteps(cfg, db, procs, p, None, steps[1..]);
        assert Alone(cfg, db, None, steps[1..]) == Outcome(db, None);
      }
    }
  }

  function RequestSteps(p: Pid, code: Code, delivered: bool): seq<Step> {
    [CountCaps(p), CheckCooldown(p), UpsertChallenge(p, code), WriteIssuance(p), Deliver(p, delivered), RollBack(p)]
  }

  function VerifySteps(p: Pid, jti: Jti): seq<Step> {
    [Charge(p), DropLocked(p), Consume(p), DropConsumed(p), Mint(p, jti)]
  }

  lemma AloneFirst(cfg: Config, db: Db, q: Proc, step: Step, rest: seq<Step>)
    ensures Alone(cfg, db, Some(q), [step] + rest) ==
            Alone(cfg, Act(cfg, db, q, step).db, Act(cfg, db, q, step).proc, rest)
  {
  }

  /** From the upsert on, a request that was let through: the four statements one inside the other. */
  function Issued(cfg: Config, db: Db, c: Contact, channel: Channel, code: Code, delivered: bool): Outcome {
    var o := UpsertAct(cfg, db, ReqCooled(c, channel, db.clock), code);
    var w := WriteIssuanceAct(o.db, o.proc.value);
    var d := DeliverAct(w.db, w.proc.value, delivered);
    if delivered then d else RollBackAct(d.db, d.proc.value)
  }

  lemma DeliverAlone(cfg: Config, db: Db, p: Pid, q: Proc, delivered: bool)
    requires q.ReqLogged?
    ensures Alone(cfg, db, Some(q), [Deliver(p, delivered), RollBack(p)]) ==
            var d := DeliverAct(db, q, delivered);
            if delivered then d else RollBackAct(d.db, d.proc.value)
  {
    var d := DeliverAct(db, q, delivered);
    AloneFirst(cfg, db, q, Deliver(p, delivered), [RollBack(p)]);
    if !delivered {
      AloneFirst(cfg, db, d.proc.value, RollBack(p), []);
    }
  }

  lemma IssueAlone(cfg: Config, db: Db, p: Pid, c: Contact, channel: Channel, code: Code, delivered: bool)
    ensures Alone(cfg, db, Some(ReqCooled(c, channel, db.clock)),
                  [UpsertChallenge(p, code), WriteIssuance(p), Deliver(p, delivered), RollBack(p)])
            == Issued(cfg, db, c, channel, code, delivered)
  {
    var q := ReqCooled(c, channel, db.clock);
    var o := UpsertAct(cfg, db, q, code);
    var w := WriteIssuanceAct(o.db, o.proc.value);
    AloneFirst(cfg, db, q, UpsertChallenge(p, code), [WriteIssuance(p), Deliver(p, delivered), RollBack(p)]);
    AloneFirst(cfg, o.db, o.proc.value, WriteIssuance(p), [Deliver(p, delivered), RollBack(p)]);
    DeliverAlone(cfg, w.db, p, w.proc.value, delivered);
  }

  lemma UpsertedTables(cfg: Config, db: Db, c: Contact, channel: Channel, code: Code)
    requires IdsOk(db.challenges, db.nextId)
    ensures var row := IssuedRow(cfg, TablesOf(db), c, channel, db.clock, code);
            var up := UpsertAct(cfg, db, ReqCooled(c, channel, db.clock), code);
            && up.db.challenges == db.challenges[c := row]
            && up.proc == Some(ReqUpserted(c, channel, db.clock, row.id))
            && DeleteById(up.db.challenges, row.id) == db.challenges - {c}
  {
  }

  /** The request has returned, and its effect is that of the call. */
  ghost predicate Requested(cfg: Config, db: Db, o: Outcome, c: Contact, channel: Channel, code: Code,
                            delivered: bool)
  {
    o.proc == None && TablesOf(o.db) == AfterRequest(cfg, TablesOf(db), c, channel, db.clock, code, delivered).0
  }

  lemma IssuedTables(cfg: Config, db: Db, c: Contact, channel: Channel, code: Code, delivered: bool)
    requires IdsOk(db.challenges, db.nextId)
    requires !OverCap(cfg, db.issuances, c, db.clock) && !CoolingDown(cfg, db.challenges, c, db.clock)
    ensures Requested(cfg, db, Issued(cfg, db, c, channel, code, delivered), c, channel, code, delivered)
  {
    UpsertedTables(cfg, db, c, channel, code);
  }

  function IssueSteps(p: Pid, code: Code, delivered: bool): seq<Step> {
    [UpsertChallenge(p, code), WriteIssuance(p), Deliver(p, delivered), RollBack(p)]
  }

  lemma CountedAlone(cfg: Config, db: Db, p: Pid, c: Contact, channel: Channel, code: Code, delivered: bool)
    requires IdsOk(db.challenges, db.nextId) && !OverCap(cfg, db.issuances, c, db.clock)
    ensures var steps := [CheckCooldown(p)] + IssueSteps(p, code, delivered);
            Requested(cfg, db, Alone(cfg, db, Some(ReqCounted(c, channel, db.clock)), steps), c, channel, code,
                delivered)
  {
    AloneFirst(cfg, db, ReqCounted(c, channel, db.clock), CheckCooldown(p), IssueSteps(p, code, delivered));
    if !CoolingDown(cfg, db.challenges, c, db.clock) {
      IssueAlone(cfg, db, p, c, channel, code, delivered);
      IssuedTables(cfg, db, c, channel, code, delivered);
    }
  }

  lemma RequestAlone(cfg: Config, db: Db, p: Pid, c: Contact, channel: Channel, code: Code, delivered: bool)
    requires IdsOk(db.challenges, db.nextId)
    ensures Requested(cfg, db, Alone(cfg, db, Some(ReqStarted(c, channel, db.clock)), RequestSteps(p, code, delivered)),
                      c, channel, code, delivered)
  {
    var rest := [CheckCooldown(p)] + IssueSteps(p, code, delivered);
    assert RequestSteps(p, code, delivered) == [CountCaps(p)] + rest;
    AloneFirst(cfg, db, ReqStarted(c, channel, db.clock), CountCaps(p), rest);
    if !OverCap(cfg, db.issuances, c, db.clock) {
      CountedAlone(cfg, db, p, c, channel, code, delivered);
    }
  }

  /** Undisturbed, the interleaved protocol does exactly what one call to `Request` does. */
  lemma RequestIsARun(cfg: Config, s: State, p: Pid, c: Contact, channel: Channel, code: Code, delivered: bool)
    requires IdsOk(s.db.challenges, s.db.nextId) && p !in s.procs
    ensures var s' := Steps(cfg, s, [BeginRequest(p, c, channel)] + RequestSteps(p, code, delivered));
            && s'.procs == s.procs
            && TablesOf(s'.db) == AfterRequest(cfg, TablesOf(s.db), c, channel, s.db.clock, code, delivered).0
  {
    RequestAlone(cfg, s.db, p, c, channel, code, delivered);
    AloneIsSteps(cfg, s.db, s.procs, p, Some(ReqStarted(c, channel, s.db.clock)), RequestSteps(p, code, delivered));
    assert ([BeginRequest(p, c, channel)] + RequestSteps(p, code, delivered))[1..] == RequestSteps(p, code, delivered);
    assert s.procs - {p} == s.procs;
  }

  /** From a matched code on: the three statements one inside the other. */
  function Won(db: Db, q: Proc, jti: Jti): Outcome {
    var o := ConsumeAct(db, q);
    if o.proc.None? then o
    else
      var d := DropConsumedAct(o.db, o.proc.value);
      if d.proc.None? then d else MintAct(d.db, d.proc.value, jti)
  }

  lemma ClearAlone(cfg: Config, db: Db, p: Pid, q: Proc, jti: Jti)
    ensures Alone(cfg, db, Some(q), [DropConsumed(p), Mint(p, jti)]) ==
            var d := DropConsumedAct(db, q);
            if d.proc.None? then d else MintAct(d.db, d.proc.value, jti)
  {
    var d := DropConsumedAct(db, q);
    AloneFirst(cfg, db, q, DropConsumed(p), [Mint(p, jti)]);
    if d.proc.Some? {
      AloneFirst(cfg, d.db, d.proc.value, Mint(p, jti), []);
    }
  }

  lemma WinAlone(cfg: Config, db: Db, p: Pid, q: Proc, jti: Jti)
    ensures Alone(cfg, db, Some(q), [Consume(p), DropConsumed(p), Mint(p, jti)]) == Won(db, q, jti)
  {
    var o := ConsumeAct(db, q);
    AloneFirst(cfg, db, q, Consume(p), [DropConsumed(p), Mint(p, jti)]);
    if o.proc.Some? {
      ClearAlone(cfg, o.db, p, o.proc.value, jti);
    }
  }

  lemma ConsumeOwn(db: Db, c: Contact)
    requires IdsOk(db.challenges, db.nextId) && c in db.challenges && !db.challenges[c].consumed
    ensures var id := db.challenges[c].id;
            && Consumable(db.challenges[c], id)
            && DeleteById(ConsumeRows(db.challenges, id), id) == db.challenges - {c}
  {
  }

  lemma WonTables(db: Db, c: Contact, channel: Channel, jti: Jti)
    requires IdsOk(db.challenges, db.nextId) && jti !in db.minted
    requires c in db.challenges && !db.challenges[c].consumed
    ensures var o := Won(db, VerMatched(c, channel, db.challenges[c].id), jti);
            && o.proc == None && TablesOf(o.db) == TablesOf(db).(challenges := db.challenges - {c})
            && o.db.minted == db.minted[jti := Token(c, channel, db.clock + TOKEN_TTL)]
  {
    ConsumeOwn(db, c);
  }

  function ChargedDb(db: Db, c: Contact): Db
    requires c in db.challenges
  {
    var row := db.challenges[c];
    db.(challenges := db.challenges[c := row.(attempts := row.attempts + 1)], charged := db.charged + multiset{c})
  }

  function ChargedOutcome(cfg: Config, db: Db, c: Contact, channel: Channel, code: Code): Outcome
    requires c in db.challenges
  {
    var row := db.challenges[c];
    if !Live(row, db.clock) then Outcome(db, Some(VerLocked(row.id)))
    else Outcome(ChargedDb(db, c),
                 if cfg.hash(c, code) == row.codeHash then Some(VerMatched(c, channel, row.id)) else None)
  }

  lemma ChargeAlone(cfg: Config, db: Db, c: Contact, channel: Channel, code: Code)
    requires IdsOk(db.challenges, db.nextId) && c in db.challenges
    ensures ChargeAct(cfg, db, VerRead(c, channel, code, db.challenges[c])) == ChargedOutcome(cfg, db, c, channel, code)
  {
  }

  /** What follows the charge: the dead challenge is dropped, or the matched one won. */
  function AfterCharge(o: Outcome, jti: Jti): Outcome {
    if o.proc.None? then o
    else
      var d := DropLockedAct(o.db, o.proc.value);
      if d.proc.None? then d else Won(d.db, d.proc.value, jti)
  }

  lemma ChargedAlone(cfg: Config, db: Db, p: Pid, q: Proc, jti: Jti)
    ensures Alone(cfg, db, Some(q), VerifySteps(p, jti)) == AfterCharge(ChargeAct(cfg, db, q), jti)
  {
    var win := [Consume(p), DropConsumed(p), Mint(p, jti)];
    assert VerifySteps(p, jti) == [Charge(p)] + ([DropLocked(p)] + win);
    AloneFirst(cfg, db, q, Charge(p), [DropLocked(p)] + win);
    var o := ChargeAct(cfg, db, q);
    if o.proc.Some? {
      AloneFirst(cfg, o.db, o.proc.value, DropLocked(p), win);
      var d := DropLockedAct(o.db, o.proc.value);
      if d.proc.Some? {
        WinAlone(cfg, d.db, p, d.proc.value, jti);
      }
    }
  }

  lemma AfterDead(db: Db, c: Contact, jti: Jti)
    requires IdsOk(db.challenges, db.nextId) && c in db.challenges
    ensures AfterCharge(Outcome(db, Some(VerLocked(db.challenges[c].id))), jti)
            == Outcome(db.(challenges := db.challenges - {c}), None)
  {
    DeleteOwn(db.challenges, db.nextId, c);
  }

  lemma AfterMatch(db: Db, c: Contact, channel: Channel, jti: Jti)
    requires IdsOk(db.challenges, db.nextId) && jti !in db.minted
    requires c in db.challenges && !db.challenges[c].consumed
    ensures var o := AfterCharge(Outcome(db, Some(VerMatched(c, channel, db.challenges[c].id))), jti);
            && o.proc == None && TablesOf(o.db) == TablesOf(db).(challenges := db.challenges - {c})
            && o.db.minted == db.minted[jti := Token(c, channel, db.clock + TOKEN_TTL)]
  {
    WonTables(db, c, channel, jti);
  }

  /** The tables and minted tokens after one verification. */
  ghost predicate Verified(cfg: Config, db: Db, o: Outcome, c: Contact, channel: Channel, code: Code, jti: Jti) {
    var (t, token) := AfterVerify(cfg, TablesOf(db), c, channel, db.clock, code);
    && o.proc == None && TablesOf(o.db) == t
    && o.db.minted == if token.Some? then db.minted[jti := token.value] else db.minted
  }

  /** A dead challenge: nothing was charged, and the row goes. */
  lemma DeadVerified(cfg: Config, db: Db, c: Contact, channel: Channel, code: Code, jti: Jti)
    requires IdsOk(db.challenges, db.nextId) && c in db.challenges && db.challenges[c].channel == channel
    requires !Live(db.challenges[c], db.clock)
    ensures var o := Outcome(db, Some(VerLocked(db.challenges[c].id)));
            Verified(cfg, db, AfterCharge(o, jti), c, channel, code, jti)
  {
    AfterDead(db, c, jti);
  }

  /** A live challenge and another code: the attempt stays charged. */
  lemma MissVerified(cfg: Config, db: Db, c: Contact, channel: Channel, code: Code, jti: Jti)
    requires c in db.challenges && db.challenges[c].channel == channel
    requires Live(db.challenges[c], db.clock) && cfg.hash(c, code) != db.challenges[c].codeHash
    ensures Verified(cfg, db, AfterCharge(ChargedOutcome(cfg, db, c, channel, code), jti), c, channel, code, jti)
  {
  }

  /** A charge leaves the row where it was. */
  lemma ChargedRow(db: Db, c: Contact)
    requires IdsOk(db.challenges, db.nextId) && c in db.challenges
    ensures var charged := ChargedDb(db, c);
            && IdsOk(charged.challenges, charged.nextId)
            && c in charged.challenges && charged.challenges[c].id == db.challenges[c].id
            && charged.challenges[c].consumed == db.challenges[c].consumed
            && charged.challenges - {c} == db.challenges - {c}
  {
  }

  /** A live challenge and its code: the row goes and a token is minted. */
  lemma MatchVerified(cfg: Config, db: Db, c: Contact, channel: Channel, code: Code, jti: Jti)
    requires IdsOk(db.challenges, db.nextId) && jti !in db.minted
    requires c in db.challenges && db.challenges[c].channel == channel
    requires Live(db.challenges[c], db.clock) && cfg.hash(c, code) == db.challenges[c].codeHash
    ensures var o := Outcome(ChargedDb(db, c), Some(VerMatched(c, channel, db.challenges[c].id)));
            Verified(cfg, db, AfterCharge(o, jti), c, channel, code, jti)
  {
    ChargedRow(db, c);
    AfterMatch(ChargedDb(db, c), c, channel, jti);
  }

  /** The charge decides: dead, wrong, or matched on a row that is still the contact's. */
  lemma ChargeVerified(cfg: Config, db: Db, c: Contact, channel: Channel, code: Code, jti: Jti)
    requires IdsOk(db.challenges, db.nextId) && jti !in db.minted
    requires c in db.challenges && db.challenges[c].channel == channel
    ensures Verified(cfg, db, AfterCharge(ChargedOutcome(cfg, db, c, channel, code), jti), c, channel, code, jti)
  {
    if !Live(db.challenges[c], db.clock) {
      DeadVerified(cfg, db, c, channel, code, jti);
    } else if cfg.hash(c, code) == db.challenges[c].codeHash {
      MatchVerified(cfg, db, c, channel, code, jti);
    } else {
      MissVerified(cfg, db, c, channel, code, jti);
    }
  }

  lemma VerifyAlone(cfg: Config, db: Db, p: Pid, c: Contact, channel: Channel, code: Code, jti: Jti)
    requires IdsOk(db.challenges, db.nextId) && jti !in db.minted
    ensures var q := Started(db, ReadChallenge(p, c, channel, code));
            Verified(cfg, db, Alone(cfg, db, q, VerifySteps(p, jti)), c, channel, code, jti)
  {
    var q := Started(db, ReadChallenge(p, c, channel, code));
    if q.Some? {
      ChargedAlone(cfg, db, p, q.value, jti);
      ChargeAlone(cfg, db, c, channel, code);
      ChargeVerified(cfg, db, c, channel, code, jti);
    }
  }

  /** Undisturbed, the interleaved protocol does exactly what one call to `Verify` does. */
  lemma VerifyIsARun(cfg: Config, s: State, p: Pid, c: Contact, channel: Channel, code: Code, jti: Jti)
    requires IdsOk(s.db.challenges, s.db.nextId) && p !in s.procs && jti !in s.db.minted
    ensures var s' := Steps(cfg, s, [ReadChallenge(p, c, channel, code)] + VerifySteps(p, jti));
            var (t, token) := AfterVerify(cfg, TablesOf(s.db), c, channel, s.db.clock, code);
            && s'.procs == s.procs && TablesOf(s'.db) == t
            && s'.db.minted == if token.Some? then s.db.minted[jti := token.value] else s.db.minted
  {
    var q := Started(s.db, ReadChallenge(p, c, channel, code));
    VerifyAlone(cfg, s.db, p, c, channel, code, jti);
    AloneIsSteps(cfg, s.db, s.procs, p, q, VerifySteps(p, jti));
    assert ([ReadChallenge(p, c, channel, code)] + VerifySteps(p, jti))[1..] == VerifySteps(p, jti);
    assert s.procs - {p} == s.procs;
  }
}
