// The concurrent bound on issuances cannot be lowered: for every configuration,
// contact and number of overlapping requests there is a run that attains it.
module OtpLimiterTight {
  import opened Common
  import opened OtpLimiter
  import opened OtpProtocol
  import opened OtpRuns
  import opened OtpService

  // ── Runs in which no time passes ────────────────────────────────────────────

  predicate Tame(step: Step, k: nat) {
    !step.Tick? && !step.PruneIssuances? && (Starts(step) ==> step.p < k)
  }

  ghost predicate AllTame(run: seq<Step>, k: nat) { forall i | 0 <= i < |run| :: Tame(run[i], k) }

  /** At most the calls 0 to k-1 run, all of them started now, and whatever is on record was issued now. */
  ghost predicate Small(s: State, k: nat) {
    && (forall p | p in s.procs :: p < k)
    && s.db.clock == 0
    && (forall p | p in s.procs && s.procs[p].ReqStarted? :: s.procs[p].now == 0)
    && (forall e | e in s.db.issuances :: e.at == 0)
  }

  lemma SmallAct(cfg: Config, db: Db, q: Proc, step: Step)
    requires db.clock == 0 && forall e | e in db.issuances :: e.at == 0
    ensures var o := Act(cfg, db, q, step);
            && o.db.clock == 0 && (forall e | e in o.db.issuances :: e.at == 0)
            && (o.proc.Some? && o.proc.value.ReqStarted? ==> o.proc.value == q)
  {
  }

  lemma SmallKept(cfg: Config, s: State, step: Step, k: nat)
    requires Small(s, k) && Tame(step, k)
    ensures Small(Next(cfg, s, step), k)
  {
    if !Maintains(step) && !Starts(step) && step.p in s.procs {
      SmallAct(cfg, s.db, s.procs[step.p], step);
    }
  }

  lemma {:induction false} TameRun(cfg: Config, run: seq<Step>, k: nat)
    requires AllTame(run, k)
    ensures Small(Exec(cfg, run), k)
  {
    if run != [] {
      TameRun(cfg, run[..|run| - 1], k);
      SmallKept(cfg, Exec(cfg, run[..|run| - 1]), run[|run| - 1], k);
    }
  }

  lemma {:induction false} FewerThan(pids: set<Pid>, k: nat)
    requires forall p | p in pids :: p < k
    ensures |pids| <= k
  {
    if k == 0 {
      assert pids == {};
    } else {
      FewerThan(pids - {k - 1}, k - 1);
    }
  }

  lemma TameIsOrderly(cfg: Config, run: seq<Step>, c: Contact, k: nat)
    requires AllTame(run, k)
    ensures Orderly(cfg, run, c, k)
  {
    forall n | 0 <= n <= |run| ensures OrderlyAt(cfg, run, c, k, n) {
      TameRun(cfg, run[..n], k);
      FewerThan(At(Exec(cfg, run[..n]).procs, InFlight(c)), k);
    }
  }

  // ── Filling the window with undelivered requests ────────────────────────────

  /** All `n` issuances for the contact were written at time 0. */
  ghost predicate Holds(log: seq<Issuance>, c: Contact, n: nat) {
    && (forall since | since <= 0 :: CountSince(log, c, since) == n)
    && Window(log, c, 0, 0) == n
  }

  lemma HoldsOneMore(log: seq<Issuance>, c: Contact, n: nat)
    requires Holds(log, c, n)
    ensures Holds(log + [Issuance(c, 0)], c, n + 1)
  {
    WindowAppend(log, Issuance(c, 0), c, 0, 0);
    forall since | since <= 0 ensures CountSince(log + [Issuance(c, 0)], c, since) == n + 1 {
      CountAppend(log, Issuance(c, 0), c, since);
    }
  }

  /** The caps let another request in. */
  predicate Room(cfg: Config, n: nat) { n < cfg.maxPerHour && n < cfg.maxPerDay }

  /** No call runs, the contact has no challenge, and `n` issuances are on record. */
  ghost predicate Filled(s: State, u: Caller, n: nat) {
    && s.procs == map[] && s.db.clock == 0 && u.contact !in s.db.challenges
    && IdsOk(s.db.challenges, s.db.nextId)
    && s.db.log == s.db.issuances && Holds(s.db.issuances, u.contact, n)
  }

  lemma SameLogs(cfg: Config, s: State, step: Step)
    requires s.db.log == s.db.issuances && !step.PruneIssuances? && !step.Tick?
    ensures Next(cfg, s, step).db.log == Next(cfg, s, step).db.issuances && Next(cfg, s, step).db.clock == s.db.clock
  {
  }

  lemma {:induction false} SameLogsAfter(cfg: Config, s: State, steps: seq<Step>)
    requires s.db.log == s.db.issuances && AllTame(steps, 1)
    ensures Steps(cfg, s, steps).db.log == Steps(cfg, s, steps).db.issuances
            && Steps(cfg, s, steps).db.clock == s.db.clock
    decreases |steps|
  {
    if steps != [] {
      SameLogs(cfg, s, steps[0]);
      SameLogsAfter(cfg, Next(cfg, s, steps[0]), steps[1..]);
    }
  }

  function Undelivered(u: Caller): seq<Step> {
    [BeginRequest(0, u.contact, u.channel)] + RequestSteps(0, u.code, false)
  }

  lemma UndeliveredIsTame(u: Caller)
    ensures AllTame(Undelivered(u), 1)
  {
  }

  /** A request whose message cannot be delivered counts, but leaves no challenge to cool down from. */
  lemma FilledFurther(cfg: Config, db: Db, t: State, u: Caller, n: nat)
    requires Filled(State(db, map[]), u, n) && Room(cfg, n) && t.procs == map[] && t.db.clock == 0
    requires TablesOf(t.db) == AfterRequest(cfg, TablesOf(db), u.contact, u.channel, 0, u.code, false).0
             && t.db.log == t.db.issuances
    ensures Filled(t, u, n + 1)
  {
    assert !OverCap(cfg, db.issuances, u.contact, 0);
    HoldsOneMore(db.issuances, u.contact, n);
  }

  lemma OneUndelivered(cfg: Config, s: State, u: Caller, n: nat)
    requires Filled(s, u, n) && Room(cfg, n)
    ensures Filled(Steps(cfg, s, Undelivered(u)), u, n + 1)
  {
    RequestIsARun(cfg, s, 0, u.contact, u.channel, u.code, false);
    UndeliveredIsTame(u);
    SameLogsAfter(cfg, s, Undelivered(u));
    FilledFurther(cfg, s.db, Steps(cfg, s, Undelivered(u)), u, n);
  }

  lemma {:induction false} Fill(cfg: Config, u: Caller, n: nat) returns (run: seq<Step>, s: State)
    requires n > 0 ==> Room(cfg, n - 1)
    ensures AllTame(run, 1) && Reaches(cfg, run, s) && Filled(s, u, n)
  {
    if n == 0 {
      run, s := [], INIT;
    } else {
      run, s := Fill(cfg, u, n - 1);
      OneUndelivered(cfg, s, u, n - 1);
      UndeliveredIsTame(u);
      ReachSteps(cfg, run, s, Undelivered(u));
      run, s := run + Undelivered(u), Steps(cfg, s, Undelivered(u));
    }
  }

  // ── The overlapping requests ────────────────────────────────────────────────

  /** The calls 0 to j-1 have all been let in. */
  function LetIn(u: Caller, j: nat): (procs: map<Pid, Proc>)
    ensures forall p: nat :: p in procs <==> p < j
    ensures forall p | p in procs :: procs[p] == ReqCooled(u.contact, u.channel, 0)
  {
    if j == 0 then map[] else LetIn(u, j - 1)[j - 1 := ReqCooled(u.contact, u.channel, 0)]
  }

  lemma OneMoreLetIn(cfg: Config, db: Db, u: Caller, n: nat, j: nat)
    requires Holds(db.issuances, u.contact, n) && Room(cfg, n) && db.clock == 0 && u.contact !in db.challenges
    ensures var started := State(db, LetIn(u, j)[j := ReqStarted(u.contact, u.channel, 0)]);
            var counted := State(db, LetIn(u, j)[j := ReqCounted(u.contact, u.channel, 0)]);
            && Next(cfg, State(db, LetIn(u, j)), BeginRequest(j, u.contact, u.channel)) == started
            && Next(cfg, started, CountCaps(j)) == counted
            && Next(cfg, counted, CheckCooldown(j)) == State(db, LetIn(u, j + 1))
  {
  }

  lemma LetOneIn(cfg: Config, before: seq<Step>, db: Db, u: Caller, n: nat, j: nat) returns (run: seq<Step>)
    requires AllTame(before, j + 1) && Reaches(cfg, before, State(db, LetIn(u, j)))
    requires Holds(db.issuances, u.contact, n) && Room(cfg, n) && db.clock == 0 && u.contact !in db.challenges
    ensures AllTame(run, j + 1) && Reaches(cfg, run, State(db, LetIn(u, j + 1)))
  {
    var started := State(db, LetIn(u, j)[j := ReqStarted(u.contact, u.channel, 0)]);
    var counted := State(db, LetIn(u, j)[j := ReqCounted(u.contact, u.channel, 0)]);
    OneMoreLetIn(cfg, db, u, n, j);
    ReachNext(cfg, before, State(db, LetIn(u, j)), BeginRequest(j, u.contact, u.channel));
    run := before + [BeginRequest(j, u.contact, u.channel)];
    ReachNext(cfg, run, started, CountCaps(j));
    run := run + [CountCaps(j)];
    ReachNext(cfg, run, counted, CheckCooldown(j));
    run := run + [CheckCooldown(j)];
  }

  lemma {:induction false} LineUp(cfg: Config, u: Caller, n: nat, j: nat) returns (run: seq<Step>, db: Db)
    requires Room(cfg, n)
    ensures AllTame(run, Max(1, j)) && Reaches(cfg, run, State(db, LetIn(u, j)))
    ensures db.clock == 0 && u.contact !in db.challenges && db.log == db.issuances && Holds(db.issuances, u.contact, n)
    decreases j
  {
    if j == 0 {
      var s;
      run, s := Fill(cfg, u, n);
      db := s.db;
    } else {
      var before;
      before, db := LineUp(cfg, u, n, j - 1);
      run := LetOneIn(cfg, before, db, u, n, j - 1);
    }
  }

  /** The calls from j on have been let in and have not written yet. */
  ghost predicate Waiting(s: State, u: Caller, j: nat, k: nat) {
    s.db.clock == 0 && forall p: nat | j <= p < k :: Running(s.procs, p) == Some(ReqCooled(u.contact, u.channel, 0))
  }

  lemma OneUpserts(cfg: Config, s: State, u: Caller, j: nat, k: nat)
    requires Waiting(s, u, j, k) && j < k
    ensures var s' := Next(cfg, s, UpsertChallenge(j, u.code));
            && Waiting(s', u, j + 1, k) && s'.db.log == s.db.log
            && exists id :: Running(s'.procs, j) == Some(ReqUpserted(u.contact, u.channel, 0, id))
  {
    assert Running(s.procs, j) == Some(ReqCooled(u.contact, u.channel, 0));
    var s' := Next(cfg, s, UpsertChallenge(j, u.code));
    assert Running(s'.procs, j) == Some(ReqUpserted(u.contact, u.channel, 0, s'.procs[j].id));
    forall p: nat | j + 1 <= p < k ensures Running(s'.procs, p) == Running(s.procs, p) {
    }
  }

  lemma OneWrites(cfg: Config, s: State, u: Caller, j: nat, k: nat, id: nat)
    requires Waiting(s, u, j + 1, k) && Running(s.procs, j) == Some(ReqUpserted(u.contact, u.channel, 0, id))
    ensures var s' := Next(cfg, s, WriteIssuance(j));
            Waiting(s', u, j + 1, k) && Window(s'.db.log, u.contact, 0, 0) == Window(s.db.log, u.contact, 0, 0) + 1
  {
    WindowAppend(s.db.log, Issuance(u.contact, 0), u.contact, 0, 0);
    forall p: nat | j + 1 <= p < k ensures Running(Next(cfg, s, WriteIssuance(j)).procs, p) == Running(s.procs, p) {
    }
  }

  lemma OneMoreIssued(cfg: Config, before: seq<Step>, s: State, u: Caller, j: nat,
          k: nat) returns (run: seq<Step>, t: State)
    requires AllTame(before, k) && Reaches(cfg, before, s) && Waiting(s, u, j, k) && j < k
    ensures AllTame(run, k) && Reaches(cfg, run, t) && Waiting(t, u, j + 1, k)
    ensures Window(t.db.log, u.contact, 0, 0) == Window(s.db.log, u.contact, 0, 0) + 1
  {
    OneUpserts(cfg, s, u, j, k);
    ReachNext(cfg, before, s, UpsertChallenge(j, u.code));
    run := before + [UpsertChallenge(j, u.code)];
    t := Next(cfg, s, UpsertChallenge(j, u.code));
    var id :| Running(t.procs, j) == Some(ReqUpserted(u.contact, u.channel, 0, id));
    OneWrites(cfg, t, u, j, k, id);
    ReachNext(cfg, run, t, WriteIssuance(j));
    run := run + [WriteIssuance(j)];
    t := Next(cfg, t, WriteIssuance(j));
  }

  lemma AllWaiting(cfg: Config, u: Caller, n: nat, k: nat) returns (run: seq<Step>, s: State)
    requires Room(cfg, n) && 1 <= k
    ensures AllTame(run, k) && Reaches(cfg, run, s) && Waiting(s, u, 0, k) && Window(s.db.log, u.contact, 0, 0) == n
  {
    var db;
    run, db := LineUp(cfg, u, n, k);
    s := State(db, LetIn(u, k));
  }

  lemma {:induction false} Rush(cfg: Config, u: Caller, n: nat, j: nat, k: nat) returns (run: seq<Step>, s: State)
    requires Room(cfg, n) && 1 <= k && j <= k
    ensures AllTame(run, k) && Reaches(cfg, run, s) && Waiting(s, u, j, k) && Window(s.db.log, u.contact, 0, 0) == n + j
    decreases j
  {
    if j == 0 {
      run, s := AllWaiting(cfg, u, n, k);
    } else {
      run, s := Rush(cfg, u, n, j - 1, k);
      run, s := OneMoreIssued(cfg, run, s, u, j - 1, k);
    }
  }

  /**
   * For every contact and every `k`, some orderly run with at most `k`
   * overlapping requests issues `k - 1` more than the smaller cap, all at the
   * same moment.
   */
  lemma LimiterBoundAttained(cfg: Config, u: Caller, k: nat) returns (run: seq<Step>)
    requires k >= 1 && cfg.maxPerHour >= 1 && cfg.maxPerDay >= 1
    ensures Orderly(cfg, run, u.contact, k)
    ensures Window(Exec(cfg, run).db.log, u.contact, 0, 0) == Min(cfg.maxPerHour, cfg.maxPerDay) - 1 + k
  {
    var s;
    run, s := Rush(cfg, u, Min(cfg.maxPerHour, cfg.maxPerDay) - 1, k, k);
    TameIsOrderly(cfg, run, u.contact, k);
  }

  // ── When pruning becomes visible ────────────────────────────────────────────

  /** A request that is about to count, at most `stall` after it read the clock. */
  ghost predicate Counting(cfg: Config, run: seq<Step>, p: Pid, c: Contact, stall: int) {
    var s := Exec(cfg, run);
    p in s.procs && s.procs[p].ReqStarted? && s.procs[p].contact == c && s.db.clock <= s.procs[p].now + stall
  }

  /** It decides as it would on the never-pruned log. */
  ghost predicate DecidesAlike(cfg: Config, run: seq<Step>, p: Pid)
    requires p in Exec(cfg, run).procs && Exec(cfg, run).procs[p].ReqStarted?
  {
    var s := Exec(cfg, run);
    var q := s.procs[p];
    OverCap(cfg, s.db.issuances, q.contact, q.now) <==> OverCap(cfg, s.db.log, q.contact, q.now)
  }

  lemma {:induction false} AllPruned(log: seq<Issuance>, now: int)
    requires forall e | e in log :: e.at < now - 2 * DAY
    ensures PrunedLog(log, now) == []
  {
    if log != [] {
      AllPruned(log[..|log| - 1], now);
    }
  }

  /**
   * After the issuances at time 0: a request reads the clock a day later, and counts
   * when they have just been pruned.
   */
  lemma StallAndPrune(cfg: Config, run: seq<Step>, s: State, u: Caller, k: nat) returns (longer: seq<Step>, t: State)
    requires Reaches(cfg, run, s) && Small(s, k)
    ensures Reaches(cfg, longer, t) && Running(t.procs, k) == Some(ReqStarted(u.contact, u.channel, DAY))
    ensures t.db.clock == 2 * DAY + 1 && t.db.issuances == [] && t.db.log == s.db.log
  {
    var s1 := s.(db := s.db.(clock := DAY));
    var s2 := s1.(procs := s1.procs[k := ReqStarted(u.contact, u.channel, DAY)]);
    var s3 := s2.(db := s2.db.(clock := 2 * DAY + 1));
    ReachNext(cfg, run, s, Tick(DAY));
    ReachNext(cfg, run + [Tick(DAY)], s1, BeginRequest(k, u.contact, u.channel));
    ReachNext(cfg, run + [Tick(DAY)] + [BeginRequest(k, u.contact, u.channel)], s2, Tick(DAY + 1));
    longer := run + [Tick(DAY)] + [BeginRequest(k, u.contact, u.channel)] + [Tick(DAY + 1)];
    ReachNext(cfg, longer, s3, PruneIssuances(2 * DAY + 1));
    AllPruned(s.db.issuances, 2 * DAY + 1);
    longer := longer + [PruneIssuances(2 * DAY + 1)];
    t := s3.(db := s3.db.(issuances := []));
  }

  lemma PruningVisible(cfg: Config, u: Caller) returns (run: seq<Step>, p: Pid)
    requires cfg.maxPerHour >= 1 && cfg.maxPerDay >= 1
    ensures Counting(cfg, run, p, u.contact, DAY + 1) && !DecidesAlike(cfg, run, p)
  {
    var s, t;
    p := cfg.maxPerDay;
    run, s := Rush(cfg, u, 0, p, p);
    TameRun(cfg, run, p);
    WindowWithinCount(s.db.log, u.contact, 0, 0, 0);
    run, t := StallAndPrune(cfg, run, s, u, p);
    assert !OverCap(cfg, [], u.contact, DAY);
  }

  /**
   * Pruning never changes the decision of a request that counts within `stall` of
   * reading the clock if and only if that is a day at most.
   */
  lemma PruningInvisibleForStallIff(cfg: Config, u: Caller, stall: int)
    requires cfg.maxPerHour >= 1 && cfg.maxPerDay >= 1
    ensures (forall run, p | Counting(cfg, run, p, u.contact, stall) :: DecidesAlike(cfg, run, p)) <==> stall <= DAY
  {
    if stall <= DAY {
      forall run, p | Counting(cfg, run, p, u.contact, stall) ensures DecidesAlike(cfg, run, p) {
        PruningInvisible(cfg, run, u.contact, Exec(cfg, run).procs[p].now);
      }
    } else {
      var run, p := PruningVisible(cfg, u);
      assert Counting(cfg, run, p, u.contact, stall);
    }
  }
}
