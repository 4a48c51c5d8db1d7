// How late a submission may commit: a run in which a pruned nonce is redeemed again.
module OtpLateCommit {
  import opened Common
  import opened OtpProtocol
  import opened OtpRuns
  import opened OtpService
  import opened OtpTokens

  // ── Building a run ──────────────────────────────────────────────────────────

  /** `run` leads to `s` and has kept the deadline. */
  ghost predicate LeadsTo(cfg: Config, slack: int, run: seq<Step>, s: State) {
    Reaches(cfg, run, s) && CommitsWithin(cfg, run, slack)
  }

  /** A redemption now would be in time. */
  predicate InTime(s: State, slack: int, step: Step) {
    step.Redeem? && step.p in s.procs && s.procs[step.p].RedChecked? ==> s.db.clock <= s.procs[step.p].exp + slack
  }

  lemma Extend(cfg: Config, slack: int, run: seq<Step>, s: State, step: Step)
    requires LeadsTo(cfg, slack, run, s) && InTime(s, slack, step)
    ensures LeadsTo(cfg, slack, run + [step], Next(cfg, s, step))
  {
    ReachNext(cfg, run, s, step);
    var more := run + [step];
    forall n | 0 <= n < |more| ensures CommitInTime(cfg, more, slack, n) {
      assert more[..n] == run[..n];
      if n < |run| {
        assert CommitInTime(cfg, run, slack, n);
      } else {
        assert run[..n] == run;
      }
    }
  }

  /** Every redemption among the steps would be in time. */
  predicate AllInTime(cfg: Config, slack: int, s: State, steps: seq<Step>)
    decreases |steps|
  {
    steps == [] || (InTime(s, slack, steps[0]) && AllInTime(cfg, slack, Next(cfg, s, steps[0]), steps[1..]))
  }

  lemma {:induction false} LastInTime(cfg: Config, slack: int, s: State, steps: seq<Step>, last: Step)
    requires AllInTime(cfg, slack, s, steps + [last])
    ensures AllInTime(cfg, slack, s, steps) && InTime(Steps(cfg, s, steps), slack, last)
    decreases |steps|
  {
    if steps == [] {
      assert (steps + [last])[0] == last;
    } else {
      assert (steps + [last])[0] == steps[0] && (steps + [last])[1..] == steps[1..] + [last];
      LastInTime(cfg, slack, Next(cfg, s, steps[0]), steps[1..], last);
    }
  }

  lemma {:induction false} ExtendAll(cfg: Config, slack: int, run: seq<Step>, s: State, steps: seq<Step>)
    requires LeadsTo(cfg, slack, run, s) && AllInTime(cfg, slack, s, steps)
    ensures LeadsTo(cfg, slack, run + steps, Steps(cfg, s, steps))
    decreases |steps|
  {
    if steps == [] {
      assert run + steps == run;
    } else {
      var n := |steps| - 1;
      var front, last := steps[..n], steps[n];
      assert steps == front + [last] && run + steps == run + front + [last];
      LastInTime(cfg, slack, s, front, last);
      ExtendAll(cfg, slack, run, s, front);
      Extend(cfg, slack, run + front, Steps(cfg, s, front), last);
      StepsLast(cfg, s, front, last);
    }
  }

  predicate Quiet(step: Step) { !step.Redeem? && !step.Tick? }

  lemma QuietStep(cfg: Config, s: State, step: Step)
    requires Quiet(step)
    ensures var s' := Next(cfg, s, step);
            && s'.db.clock == s.db.clock && s'.db.redeemed == s.db.redeemed
            && (!step.Mint? ==> s'.db.minted == s.db.minted)
  {
  }

  /** Without redemptions and waiting, the deadline does not matter. */
  lemma {:induction false} QuietSteps(cfg: Config, slack: int, s: State, steps: seq<Step>)
    requires forall i | 0 <= i < |steps| :: Quiet(steps[i])
    ensures AllInTime(cfg, slack, s, steps)
    ensures Steps(cfg, s, steps).db.clock == s.db.clock && Steps(cfg, s, steps).db.redeemed == s.db.redeemed
    ensures (forall i | 0 <= i < |steps| :: !steps[i].Mint?) ==> Steps(cfg, s, steps).db.minted == s.db.minted
    decreases |steps|
  {
    if steps != [] {
      var next := Next(cfg, s, steps[0]);
      QuietStep(cfg, s, steps[0]);
      QuietSteps(cfg, slack, next, steps[1..]);
    }
  }

  // ── One token, presented twice ──────────────────────────────────────────────

  /** What the environment validation guarantees: all limits are positive. */
  predicate Deployed(cfg: Config) {
    cfg.maxPerHour > 0 && cfg.maxPerDay > 0 && cfg.maxAttempts > 0 && cfg.ttlMs > 0
  }

  lemma RequestOnce(cfg: Config, slack: int, u: Caller) returns (run: seq<Step>, s: State)
    requires Deployed(cfg)
    ensures LeadsTo(cfg, slack, run, s) && s.procs == map[]
    ensures TablesOf(s.db) == AfterRequest(cfg, TablesOf(INIT.db), u.contact, u.channel, 0, u.code, true).0
    ensures s.db.clock == 0 && s.db.minted == map[] && s.db.redeemed == multiset{}
  {
    var steps := [BeginRequest(0, u.contact, u.channel)] + RequestSteps(0, u.code, true);
    RequestIsARun(cfg, INIT, 0, u.contact, u.channel, u.code, true);
    QuietSteps(cfg, slack, INIT, steps);
    ExtendAll(cfg, slack, [], INIT, steps);
    run, s := [] + steps, Steps(cfg, INIT, steps);
  }

  lemma VerifyOnce(cfg: Config, slack: int, u: Caller, jti: Jti) returns (run: seq<Step>, s: State)
    requires Deployed(cfg)
    ensures LeadsTo(cfg, slack, run, s) && s.procs == map[] && s.db.used == map[]
    ensures s.db.clock == 0 && s.db.minted == map[jti := Token(u.contact, u.channel, TOKEN_TTL)]
            && s.db.redeemed == multiset{}
  {
    var before, requested := RequestOnce(cfg, slack, u);
    var steps := [ReadChallenge(0, u.contact, u.channel, u.code)] + VerifySteps(0, jti);
    assert OverCap(cfg, [], u.contact, 0) == false;
    VerifyIsARun(cfg, requested, 0, u.contact, u.channel, u.code, jti);
    QuietSteps(cfg, slack, requested, steps);
    ExtendAll(cfg, slack, before, requested, steps);
    run, s := before + steps, Steps(cfg, requested, steps);
  }

  /** A submission that was let in with the token. */
  function Checked(jti: Jti): Proc { RedChecked(jti, TOKEN_TTL) }

  function Both(jti: Jti): map<Pid, Proc> { map[2 := Checked(jti), 3 := Checked(jti)] }

  function Second(jti: Jti): map<Pid, Proc> { map[3 := Checked(jti)] }

  /** Some steps lead from `s` to `t`, in time, whatever follows. */
  ghost predicate Passes(cfg: Config, slack: int, s: State, steps: seq<Step>, t: State) {
    AllInTime(cfg, slack, s, steps) && Steps(cfg, s, steps) == t
  }

  lemma PassesOne(cfg: Config, slack: int, s: State, step: Step, t: State)
    requires InTime(s, slack, step) && Next(cfg, s, step) == t
    ensures Passes(cfg, slack, s, [step], t)
  {
  }

  lemma PassesFirst(cfg: Config, slack: int, s: State, steps: seq<Step>, t: State)
    requires steps != []
    ensures Passes(cfg, slack, s, steps, t) <==>
            InTime(s, slack, steps[0]) && Passes(cfg, slack, Next(cfg, s, steps[0]), steps[1..], t)
  {
  }

  lemma {:induction false} PassesMore(cfg: Config, slack: int, s: State, steps: seq<Step>, t: State,
          more: seq<Step>, u: State)
    requires Passes(cfg, slack, s, steps, t) && Passes(cfg, slack, t, more, u)
    ensures Passes(cfg, slack, s, steps + more, u)
    decreases |steps|
  {
    if steps == [] {
      assert steps + more == more;
    } else {
      PassesFirst(cfg, slack, s, steps, t);
      PassesMore(cfg, slack, Next(cfg, s, steps[0]), steps[1..], t, more, u);
      assert (steps + more)[0] == steps[0] && (steps + more)[1..] == steps[1..] + more;
      PassesFirst(cfg, slack, s, steps + more, u);
    }
  }

  /** At the very expiry, two submissions with the same token are let in. */
  lemma BothLetIn(cfg: Config, slack: int, s: State, u: Caller, jti: Jti) returns (steps: seq<Step>, db: Db)
    requires s.procs == map[] && s.db.clock == 0 && s.db.minted == map[jti := Token(u.contact, u.channel, TOKEN_TTL)]
    ensures Passes(cfg, slack, s, steps, State(db, Both(jti))) && db == s.db.(clock := TOKEN_TTL)
  {
    db := s.db.(clock := TOKEN_TTL);
    var late, one := State(db, map[]), State(db, map[2 := Checked(jti)]);
    PassesOne(cfg, slack, s, Tick(TOKEN_TTL), late);
    PassesOne(cfg, slack, late, CheckToken(2, jti), one);
    PassesOne(cfg, slack, one, CheckToken(3, jti), State(db, Both(jti)));
    PassesMore(cfg, slack, s, [Tick(TOKEN_TTL)], late, [CheckToken(2, jti)], one);
    steps := [Tick(TOKEN_TTL)] + [CheckToken(2, jti)];
    PassesMore(cfg, slack, s, steps, one, [CheckToken(3, jti)], State(db, Both(jti)));
    steps := steps + [CheckToken(3, jti)];
  }

  /** A millisecond later the nonce of the first redemption is pruned. */
  lemma Forgotten(cfg: Config, slack: int, db: Db, jti: Jti) returns (steps: seq<Step>, db': Db)
    requires db.clock == TOKEN_TTL && db.used == map[jti := TOKEN_TTL] && db.redeemed == multiset{jti}
    ensures Passes(cfg, slack, State(db, Second(jti)), steps, State(db', Second(jti)))
    ensures db'.clock == TOKEN_TTL + 1 && db'.used == map[] && db'.redeemed == multiset{jti}
  {
    var now, later := State(db, Second(jti)), State(db.(clock := TOKEN_TTL + 1), Second(jti));
    db' := later.db.(used := map[]);
    PassesOne(cfg, slack, now, Tick(1), later);
    assert Next(cfg, later, PruneTokens(TOKEN_TTL + 1)) == State(db', Second(jti));
    PassesOne(cfg, slack, later, PruneTokens(TOKEN_TTL + 1), State(db', Second(jti)));
    PassesMore(cfg, slack, now, [Tick(1)], later, [PruneTokens(TOKEN_TTL + 1)], State(db', Second(jti)));
    steps := [Tick(1)] + [PruneTokens(TOKEN_TTL + 1)];
  }

  function Redeemed(db: Db, jti: Jti): Db {
    db.(used := map[jti := TOKEN_TTL], redeemed := db.redeemed + multiset{jti})
  }

  /** One of the two redeems in time. */
  lemma FirstRedeems(cfg: Config, slack: int, db: Db, jti: Jti)
    requires slack >= 0 && db.clock == TOKEN_TTL && db.used == map[]
    ensures Passes(cfg, slack, State(db, Both(jti)), [Redeem(2)], State(Redeemed(db, jti), Second(jti)))
  {
    PassesOne(cfg, slack, State(db, Both(jti)), Redeem(2), State(Redeemed(db, jti), Second(jti)));
  }

  /** The other redeems late. */
  lemma SecondRedeems(cfg: Config, slack: int, db: Db, jti: Jti)
    requires slack >= 1 && db.clock == TOKEN_TTL + 1 && db.used == map[]
    ensures Passes(cfg, slack, State(db, Second(jti)), [Redeem(3)], State(Redeemed(db, jti), map[]))
  {
    PassesOne(cfg, slack, State(db, Second(jti)), Redeem(3), State(Redeemed(db, jti), map[]));
  }

  lemma BothRedeem(cfg: Config, slack: int, s: State, u: Caller, jti: Jti) returns (steps: seq<Step>, t: State)
    requires slack >= 1 && s.procs == map[] && s.db.clock == 0 && s.db.used == map[] && s.db.redeemed == multiset{}
    requires s.db.minted == map[jti := Token(u.contact, u.channel, TOKEN_TTL)]
    ensures Passes(cfg, slack, s, steps, t) && t.db.redeemed[jti] == 2
  {
    var db, forget;
    steps, db := BothLetIn(cfg, slack, s, u, jti);
    FirstRedeems(cfg, slack, db, jti);
    var once := State(Redeemed(db, jti), Second(jti));
    PassesMore(cfg, slack, s, steps, State(db, Both(jti)), [Redeem(2)], once);
    forget, db := Forgotten(cfg, slack, once.db, jti);
    PassesMore(cfg, slack, s, steps + [Redeem(2)], once, forget, State(db, Second(jti)));
    SecondRedeems(cfg, slack, db, jti);
    t := State(Redeemed(db, jti), map[]);
    PassesMore(cfg, slack, s, steps + [Redeem(2)] + forget, State(db, Second(jti)), [Redeem(3)], t);
    steps := steps + [Redeem(2)] + forget + [Redeem(3)];
  }

  /**
   * For every contact, code and nonce: two submissions are let in at the expiry of
   * the token, one commits at once, the other a millisecond later, when the nonce
   * has just been pruned, and both redeem.
   */
  lemma LateCommitRedeemsTwice(cfg: Config, slack: int, u: Caller, jti: Jti) returns (run: seq<Step>)
    requires Deployed(cfg) && slack >= 1
    ensures CommitsWithin(cfg, run, slack) && Exec(cfg, run).db.redeemed[jti] == 2
  {
    var before, s := VerifyOnce(cfg, slack, u, jti);
    var steps, t := BothRedeem(cfg, slack, s, u, jti);
    ExtendAll(cfg, slack, before, s, steps);
    run := before + steps;
  }

  /**
   * Single redemption of any one nonce under a commit deadline of `slack` after
   * the token's expiry holds for every run if and only if there is no slack at all.
   */
  lemma SingleRedemptionIff(cfg: Config, slack: int, jti: Jti)
    requires Deployed(cfg)
    ensures (forall run | CommitsWithin(cfg, run, slack) :: Exec(cfg, run).db.redeemed[jti] <= 1) <==> slack <= 0
  {
    if slack <= 0 {
      forall run | CommitsWithin(cfg, run, slack) ensures Exec(cfg, run).db.redeemed[jti] <= 1 {
        forall n | 0 <= n < |run| ensures CommitInTime(cfg, run, 0, n) {
          assert CommitInTime(cfg, run, slack, n);
        }
        SingleRedemption(cfg, run, jti);
      }
    } else {
      var u := Caller("tischlerin@example.de", EMAIL, "482915");
      var run := LateCommitRedeemsTwice(cfg, slack, u, jti);
      assert Exec(cfg, run).db.redeemed[jti] > 1;
    }
  }
}
