// The one-time-code protocol as interleaved atomic steps.
//
// Every database statement (or `$transaction`) is one step; the requests,
// verifications, token redemptions and the hourly prune may interleave in any
// order between those steps, and any of them may die between two steps.
// A step that is not enabled leaves the state alone, so EVERY sequence of steps
// is a run and `Exec` gives the state it leads to.
module OtpProtocol {
  import opened Common

  type Contact = string
  type Code = string
  type Digest = string
  type Pid = nat
  type Jti = string

  datatype Channel = EMAIL | SMS

  /** Who asks, how the code is sent, and the code. */
  datatype Caller = Caller(contact: Contact, channel: Channel, code: Code)

  const HOUR := 3_600_000
  const DAY := 86_400_000
  const TOKEN_TTL := 900_000

  /** The service configuration; `hash` is the keyed hash of a contact and a code. */
  datatype Config = Config(
    maxPerHour: nat,
    maxPerDay: nat,
    cooldownMs: nat,
    ttlMs: nat,
    maxAttempts: nat,
    hash: (Contact, Code) -> Digest)

  datatype Challenge = Challenge(
    id: nat,
    channel: Channel,
    codeHash: Digest,
    attempts: nat,
    maxAttempts: nat,
    expiresAt: int,
    consumed: bool,
    createdAt: int)

  datatype Issuance = Issuance(contact: Contact, at: int)

  datatype Token = Token(contact: Contact, channel: Channel, exp: int)

  /** Where a running call stands, with the local variables it still needs. */
  datatype Proc =
    | ReqStarted(contact: Contact, channel: Channel, now: int)
    | ReqCounted(contact: Contact, channel: Channel, now: int)
    | ReqCooled(contact: Contact, channel: Channel, now: int)
    | ReqUpserted(contact: Contact, channel: Channel, now: int, id: nat)
    | ReqLogged(contact: Contact, id: nat)
    | ReqUndelivered(id: nat)
    | VerRead(contact: Contact, channel: Channel, code: Code, snap: Challenge)
    | VerLocked(id: nat)
    | VerMatched(contact: Contact, channel: Channel, id: nat)
    | VerWon(contact: Contact, channel: Channel, id: nat)
    | VerCleared(contact: Contact, channel: Channel)
    | RedChecked(jti: Jti, exp: int)

  /**
   * The tables, the clock, and (last six fields) what has happened so far: the
   * never-pruned issuance log, upserts, charged comparisons and won consumes per
   * contact, minted tokens, and redemptions per nonce.
   */
  datatype Db = Db(
    clock: int,
    nextId: nat,
    challenges: map<Contact, Challenge>,
    issuances: seq<Issuance>,
    used: map<Jti, int>,
    log: seq<Issuance>,
    upserts: multiset<Contact>,
    charged: multiset<Contact>,
    won: multiset<Contact>,
    minted: map<Jti, Token>,
    redeemed: multiset<Jti>)

  /** The database and the calls in progress. */
  datatype State = State(db: Db, procs: map<Pid, Proc>)

  const INIT := State(Db(0, 0, map[], [], map[], [], multiset{}, multiset{}, multiset{}, map[], multiset{}), map[])

  datatype Step =
    | Tick(ms: nat)
    | BeginRequest(p: Pid, contact: Contact, channel: Channel)
    | CountCaps(p: Pid)
    | CheckCooldown(p: Pid)
    | UpsertChallenge(p: Pid, code: Code)
    | WriteIssuance(p: Pid)
    | Deliver(p: Pid, ok: bool)
    | RollBack(p: Pid)
    | ReadChallenge(p: Pid, contact: Contact, channel: Channel, code: Code)
    | Charge(p: Pid)
    | DropLocked(p: Pid)
    | Consume(p: Pid)
    | DropConsumed(p: Pid)
    | Mint(p: Pid, jti: Jti)
    | CheckToken(p: Pid, jti: Jti)
    | Redeem(p: Pid)
    | PruneChallenges(now: int)
    | PruneTokens(now: int)
    | PruneIssuances(now: int)
    | Die(p: Pid)

  // ── The statements ──────────────────────────────────────────────────────────

  /** `count(contactHash = c, createdAt >= since)`. */
  function CountSince(log: seq<Issuance>, c: Contact, since: int): nat {
    if log == [] then 0
    else
      var e := log[|log| - 1];
      CountSince(log[..|log| - 1], c, since) + if e.contact == c && e.at >= since then 1 else 0
  }

  predicate OverCap(cfg: Config, log: seq<Issuance>, c: Contact, now: int) {
    || CountSince(log, c, now - HOUR) >= cfg.maxPerHour
    || CountSince(log, c, now - DAY) >= cfg.maxPerDay
  }

  predicate CoolingDown(cfg: Config, challenges: map<Contact, Challenge>, c: Contact, now: int) {
    c in challenges && now - challenges[c].createdAt < cfg.cooldownMs
  }

  /** The upserted row: an existing row keeps its id, a new one gets a fresh id. */
  function UpsertedRow(cfg: Config, db: Db, c: Contact, channel: Channel, now: int, code: Code): Challenge {
    var digest := cfg.hash(c, code);
    if c in db.challenges
    then Challenge(db.challenges[c].id, channel, digest, 0, cfg.maxAttempts, now + cfg.ttlMs, false, now)
    else Challenge(db.nextId, channel, digest, 0, cfg.maxAttempts, now + cfg.ttlMs, false, db.clock)
  }

  /** `deleteMany(id = id)`. */
  function DeleteById(challenges: map<Contact, Challenge>, id: nat): map<Contact, Challenge> {
    map c | c in challenges && challenges[c].id != id :: challenges[c]
  }

  /** The `where` of the conditional charge. */
  predicate Chargeable(row: Challenge, id: nat, now: int, maxAttempts: nat) {
    row.id == id && !row.consumed && row.expiresAt > now && row.attempts < maxAttempts
  }

  function ChargeRows(challenges: map<Contact, Challenge>, id: nat, now: int, maxAttempts: nat)
    : map<Contact, Challenge>
  {
    map c | c in challenges ::
      if Chargeable(challenges[c], id, now, maxAttempts)
      then challenges[c].(attempts := challenges[c].attempts + 1)
      else challenges[c]
  }

  /** The `where` of the conditional consume. */
  predicate Consumable(row: Challenge, id: nat) {
    row.id == id && !row.consumed
  }

  function ConsumeRows(challenges: map<Contact, Challenge>, id: nat): map<Contact, Challenge> {
    map c | c in challenges ::
      if Consumable(challenges[c], id) then challenges[c].(consumed := true) else challenges[c]
  }

  /** What pruning at `now` leaves of the issuance log: two days. */
  function PrunedLog(log: seq<Issuance>, now: int): seq<Issuance> {
    if log == [] then []
    else
      var e := log[|log| - 1];
      PrunedLog(log[..|log| - 1], now) + if e.at < now - 2 * DAY then [] else [e]
  }

  // ── One statement of a running call ─────────────────────────────────────────

  /** The database afterwards, and where the call stands; None when it has returned. */
  datatype Outcome = Outcome(db: Db, proc: Option<Proc>)

  // `request`

  function CountCapsAct(cfg: Config, db: Db, q: Proc): Outcome {
    match q
    case ReqStarted(c, ch, now) =>
      Outcome(db, if OverCap(cfg, db.issuances, c, now) then None else Some(ReqCounted(c, ch, now)))
    case _ => Outcome(db, Some(q))
  }

  function CheckCooldownAct(cfg: Config, db: Db, q: Proc): Outcome {
    match q
    case ReqCounted(c, ch, now) =>
      Outcome(db, if CoolingDown(cfg, db.challenges, c, now) then None else Some(ReqCooled(c, ch, now)))
    case _ => Outcome(db, Some(q))
  }

  function UpsertAct(cfg: Config, db: Db, q: Proc, code: Code): Outcome {
    match q
    case ReqCooled(c, ch, now) =>
      var row := UpsertedRow(cfg, db, c, ch, now, code);
      Outcome(db.(challenges := db.challenges[c := row],
                  nextId := if c in db.challenges then db.nextId else db.nextId + 1,
                  upserts := db.upserts + multiset{c}),
              Some(ReqUpserted(c, ch, now, row.id)))
    case _ => Outcome(db, Some(q))
  }

  function WriteIssuanceAct(db: Db, q: Proc): Outcome {
    match q
    case ReqUpserted(c, _, _, id) =>
      var e := Issuance(c, db.clock);
      Outcome(db.(issuances := db.issuances + [e], log := db.log + [e]), Some(ReqLogged(c, id)))
    case _ => Outcome(db, Some(q))
  }

  function DeliverAct(db: Db, q: Proc, ok: bool): Outcome {
    match q
    case ReqLogged(_, id) => Outcome(db, if ok then None else Some(ReqUndelivered(id)))
    case _ => Outcome(db, Some(q))
  }

  function RollBackAct(db: Db, q: Proc): Outcome {
    match q
    case ReqUndelivered(id) => Outcome(db.(challenges := DeleteById(db.challenges, id)), None)
    case _ => Outcome(db, Some(q))
  }

  // `verify`

  /** The comparison against the snapshot follows the charge without another statement. */
  function ChargeAct(cfg: Config, db: Db, q: Proc): Outcome {
    match q
    case VerRead(c, ch, code, snap) =>
      if exists d | d in db.challenges :: Chargeable(db.challenges[d], snap.id, db.clock, snap.maxAttempts) then
        Outcome(db.(challenges := ChargeRows(db.challenges, snap.id, db.clock, snap.maxAttempts),
                    charged := db.charged + multiset{c}),
                if cfg.hash(c, code) == snap.codeHash then Some(VerMatched(c, ch, snap.id)) else None)
      else Outcome(db, Some(VerLocked(snap.id)))
    case _ => Outcome(db, Some(q))
  }

  function DropLockedAct(db: Db, q: Proc): Outcome {
    match q
    case VerLocked(id) => Outcome(db.(challenges := DeleteById(db.challenges, id)), None)
    case _ => Outcome(db, Some(q))
  }

  function ConsumeAct(db: Db, q: Proc): Outcome {
    match q
    case VerMatched(c, ch, id) =>
      if exists d | d in db.challenges :: Consumable(db.challenges[d], id) then
        Outcome(db.(challenges := ConsumeRows(db.challenges, id), won := db.won + multiset{c}),
                Some(VerWon(c, ch, id)))
      else Outcome(db, None)
    case _ => Outcome(db, Some(q))
  }

  function DropConsumedAct(db: Db, q: Proc): Outcome {
    match q
    case VerWon(c, ch, id) =>
      Outcome(db.(challenges := DeleteById(db.challenges, id)), Some(VerCleared(c, ch)))
    case _ => Outcome(db, Some(q))
  }

  /** The nonce is random: one that was minted before never comes again. */
  function MintAct(db: Db, q: Proc, jti: Jti): Outcome {
    match q
    case VerCleared(c, ch) =>
      if jti in db.minted then Outcome(db, Some(q))
      else Outcome(db.(minted := db.minted[jti := Token(c, ch, db.clock + TOKEN_TTL)]), None)
    case _ => Outcome(db, Some(q))
  }

  // Redeeming a token, in an application or a partner registration

  /** The transaction that inserts the nonce: a used one violates the primary key. */
  function RedeemAct(db: Db, q: Proc): Outcome {
    match q
    case RedChecked(jti, exp) =>
      Outcome(if jti in db.used then db
              else db.(used := db.used[jti := exp], redeemed := db.redeemed + multiset{jti}),
              None)
    case _ => Outcome(db, Some(q))
  }

  // ── Steps ───────────────────────────────────────────────────────────────────

  /** A call that starts: it has read the clock, a challenge, or its token. */
  function Started(db: Db, step: Step): Option<Proc> {
    match step
    case BeginRequest(_, c, ch) => Some(ReqStarted(c, ch, db.clock))
    case ReadChallenge(_, c, ch, code) =>
      if c in db.challenges && db.challenges[c].channel == ch
      then Some(VerRead(c, ch, code, db.challenges[c])) else None
    case CheckToken(_, jti) =>
      // Only a minted token carries a valid signature; it is accepted up to its expiry.
      if jti in db.minted && db.clock <= db.minted[jti].exp
      then Some(RedChecked(jti, db.minted[jti].exp)) else None
    case _ => None
  }

  predicate Starts(step: Step) { step.BeginRequest? || step.ReadChallenge? || step.CheckToken? }

  /** Time, and the hourly prune: three deletions, each with the time the job started at. */
  function Maintained(db: Db, step: Step): Db {
    match step
    case Tick(ms) => db.(clock := db.clock + ms)
    case PruneChallenges(now) =>
      if now > db.clock then db
      else db.(challenges :=
        map c | c in db.challenges && !(db.challenges[c].expiresAt < now - HOUR) :: db.challenges[c])
    case PruneTokens(now) =>
      if now > db.clock then db
      else db.(used := map j | j in db.used && !(db.used[j] < now) :: db.used[j])
    case PruneIssuances(now) =>
      if now > db.clock then db else db.(issuances := PrunedLog(db.issuances, now))
    case _ => db
  }

  predicate Maintains(step: Step) {
    step.Tick? || step.PruneChallenges? || step.PruneTokens? || step.PruneIssuances?
  }

  /** What a step does for the running call it belongs to. */
  function Act(cfg: Config, db: Db, q: Proc, step: Step): Outcome {
    match step
    case CountCaps(_) => CountCapsAct(cfg, db, q)
    case CheckCooldown(_) => CheckCooldownAct(cfg, db, q)
    case UpsertChallenge(_, code) => UpsertAct(cfg, db, q, code)
    case WriteIssuance(_) => WriteIssuanceAct(db, q)
    case Deliver(_, ok) => DeliverAct(db, q, ok)
    case RollBack(_) => RollBackAct(db, q)
    case Charge(_) => ChargeAct(cfg, db, q)
    case DropLocked(_) => DropLockedAct(db, q)
    case Consume(_) => ConsumeAct(db, q)
    case DropConsumed(_) => DropConsumedAct(db, q)
    case Mint(_, jti) => MintAct(db, q, jti)
    case Redeem(_) => RedeemAct(db, q)
    case Die(_) => Outcome(db, None)
    case _ => Outcome(db, Some(q))
  }

  function SetProc(procs: map<Pid, Proc>, p: Pid, q: Option<Proc>): map<Pid, Proc> {
    match q
    case Some(v) => procs[p := v]
    case None => procs - {p}
  }

  function Next(cfg: Config, s: State, step: Step): State {
    if Maintains(step) then s.(db := Maintained(s.db, step))
    else if Starts(step) then
      if step.p in s.procs then s else s.(procs := SetProc(s.procs, step.p, Started(s.db, step)))
    else if step.p !in s.procs then s
    else
      var o := Act(cfg, s.db, s.procs[step.p], step);
      State(o.db, SetProc(s.procs, step.p, o.proc))
  }

  /** The state after a run. */
  function Exec(cfg: Config, run: seq<Step>): State {
    if run == [] then INIT else Next(cfg, Exec(cfg, run[..|run| - 1]), run[|run| - 1])
  }

  // ── Counting calls that stand at a given point ──────────────────────────────

  /** Between the cap count and the issuance write / between the won consume and the mint. */
  datatype Stand = InFlight(c: Contact) | Owed(c: Contact)

  predicate StandsAt(q: Proc, k: Stand) {
    match k
    case InFlight(c) => (q.ReqCounted? || q.ReqCooled? || q.ReqUpserted?) && q.contact == c
    case Owed(c) => (q.VerWon? || q.VerCleared?) && q.contact == c
  }

  function At(procs: map<Pid, Proc>, k: Stand): set<Pid> {
    set p | p in procs && StandsAt(procs[p], k)
  }

  function Weight(q: Option<Proc>, k: Stand): nat {
    if q.Some? && StandsAt(q.value, k) then 1 else 0
  }

  function Running(procs: map<Pid, Proc>, p: Pid): Option<Proc> {
    if p in procs then Some(procs[p]) else None
  }

  lemma AtWithout(procs: map<Pid, Proc>, p: Pid, k: Stand)
    ensures |At(procs - {p}, k)| == |At(procs, k)| - Weight(Running(procs, p), k)
  {
    assert At(procs - {p}, k) == At(procs, k) - {p};
  }

  lemma AtWith(procs: map<Pid, Proc>, p: Pid, q: Proc, k: Stand)
    ensures |At(procs[p := q], k)| == |At(procs - {p}, k)| + Weight(Some(q), k)
  {
    var rest := At(procs - {p}, k);
    assert At(procs[p := q], k) == if StandsAt(q, k) then rest + {p} else rest;
  }

  /** Moving one call moves exactly its own weight. */
  lemma AtAfter(procs: map<Pid, Proc>, p: Pid, q: Option<Proc>, k: Stand)
    ensures |At(SetProc(procs, p, q), k)| == |At(procs, k)| - Weight(Running(procs, p), k) + Weight(q, k)
  {
    AtWithout(procs, p, k);
    if q.Some? {
      AtWith(procs, p, q.value, k);
    }
  }
}
