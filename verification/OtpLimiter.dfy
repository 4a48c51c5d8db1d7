// The issuance caps under concurrency, and why pruning the log cannot loosen them.
module OtpLimiter {
  import opened Common
  import opened OtpProtocol

  /** Issuances for `c` in the closed window from `lo` to `hi`. */
  function Window(log: seq<Issuance>, c: Contact, lo: int, hi: int): nat {
    if log == [] then 0
    else
      var e := log[|log| - 1];
      Window(log[..|log| - 1], c, lo, hi) + if e.contact == c && lo <= e.at <= hi then 1 else 0
  }

  lemma WindowAppend(log: seq<Issuance>, e: Issuance, c: Contact, lo: int, hi: int)
    ensures Window(log + [e], c, lo, hi) == Window(log, c, lo, hi) + if e.contact == c && lo <= e.at <= hi then 1 else 0
  {
  }

  lemma {:induction false} WindowWithinCount(log: seq<Issuance>, c: Contact, lo: int, hi: int, since: int)
    requires since <= lo
    ensures Window(log, c, lo, hi) <= CountSince(log, c, since)
  {
    if log != [] {
      WindowWithinCount(log[..|log| - 1], c, lo, hi, since);
    }
  }

  // ── Pruning ─────────────────────────────────────────────────────────────────

  lemma PruneAppend(log: seq<Issuance>, e: Issuance, now: int)
    ensures PrunedLog(log + [e], now) == PrunedLog(log, now) + if e.at < now - 2 * DAY then [] else [e]
  {
  }

  lemma CountAppend(log: seq<Issuance>, e: Issuance, c: Contact, since: int)
    ensures CountSince(log + [e], c, since)
            == CountSince(log, c, since) + if e.contact == c && e.at >= since then 1 else 0
  {
  }

  /** Pruning forgets nothing a count still asks for, as long as the count does not reach back beyond two days. */
  lemma {:induction false} PruneKeepsCount(log: seq<Issuance>, c: Contact, since: int, now: int)
    requires now - 2 * DAY <= since
    ensures CountSince(PrunedLog(log, now), c, since) == CountSince(log, c, since)
  {
    if log != [] {
      var e := log[|log| - 1];
      PruneKeepsCount(log[..|log| - 1], c, since, now);
      if e.at >= now - 2 * DAY {
        CountAppend(PrunedLog(log[..|log| - 1], now), e, c, since);
      } else {
        assert PrunedLog(log, now) == PrunedLog(log[..|log| - 1], now);
      }
    }
  }

  /**
   * Exactly when: a prune at `now` leaves every log's count since `since` alone
   * if and only if the count does not reach back before the prune's own bound.
   */
  lemma PruningInvisibleIff(c: Contact, since: int, now: int)
    ensures (forall log :: CountSince(PrunedLog(log, now), c, since) == CountSince(log, c, since))
            <==> now - 2 * DAY <= since
  {
    if now - 2 * DAY <= since {
      forall log ensures CountSince(PrunedLog(log, now), c, since) == CountSince(log, c, since) {
        PruneKeepsCount(log, c, since, now);
      }
    } else {
      var forgotten := [Issuance(c, since)];
      PruneAppend([], forgotten[0], now);
      CountAppend([], forgotten[0], c, since);
      assert forgotten == [] + [forgotten[0]];
      assert CountSince(PrunedLog(forgotten, now), c, since) == 0 != CountSince(forgotten, c, since);
    }
  }

  // ── The invariant of the stored log ─────────────────────────────────────────

  /** Every count that reaches back at most two days from the current time agrees with the full log. */
  ghost predicate LogOk(db: Db) {
    && (forall c, since | db.clock - 2 * DAY <= since ::
          CountSince(db.issuances, c, since) == CountSince(db.log, c, since))
  }

  /** Only the issuance write touches the logs, and only by appending the same entry to both. */
  lemma ActLogs(cfg: Config, db: Db, q: Proc, step: Step)
    ensures var o, e := Act(cfg, db, q, step), if q.ReqUpserted? then [Issuance(q.contact, db.clock)] else [];
            && o.db.clock == db.clock
            && (if step.WriteIssuance? then o.db.log == db.log + e && o.db.issuances == db.issuances + e
                else o.db.log == db.log && o.db.issuances == db.issuances)
  {
  }

  lemma ActKeepsLog(cfg: Config, db: Db, q: Proc, step: Step)
    requires LogOk(db)
    ensures LogOk(Act(cfg, db, q, step).db)
  {
    var db' := Act(cfg, db, q, step).db;
    ActLogs(cfg, db, q, step);
    forall c, since | db'.clock - 2 * DAY <= since
      ensures CountSince(db'.issuances, c, since) == CountSince(db'.log, c, since)
    {
      if step.WriteIssuance? && q.ReqUpserted? {
        CountAppend(db.issuances, Issuance(q.contact, db.clock), c, since);
        CountAppend(db.log, Issuance(q.contact, db.clock), c, since);
      }
    }
  }

  lemma PruneKeepsLog(db: Db, step: Step)
    requires LogOk(db) && Maintains(step)
    ensures LogOk(Maintained(db, step))
  {
    var db' := Maintained(db, step);
    forall c, since | db'.clock - 2 * DAY <= since
      ensures CountSince(db'.issuances, c, since) == CountSince(db'.log, c, since)
    {
      if step.PruneIssuances? && step.now <= db.clock {
        PruneKeepsCount(db.issuances, c, since, step.now);
      }
    }
  }

  lemma LogKept(cfg: Config, s: State, step: Step)
    requires LogOk(s.db)
    ensures LogOk(Next(cfg, s, step).db)
  {
    if Maintains(step) {
      PruneKeepsLog(s.db, step);
    } else if !Starts(step) && step.p in s.procs {
      ActKeepsLog(cfg, s.db, s.procs[step.p], step);
    }
  }

  // ── The caps ────────────────────────────────────────────────────────────────

  /** The two rolling caps: at most `max` in a window of `span`. */
  predicate IsCap(cfg: Config, span: nat, max: nat) {
    (span == HOUR && max == cfg.maxPerHour) || (span == DAY && max == cfg.maxPerDay)
  }

  /** The premise of the bound: never more than `k` requests for `c` between cap count and issuance write. */
  ghost predicate Orderly(cfg: Config, run: seq<Step>, c: Contact, k: nat) {
    forall n | 0 <= n <= |run| :: OrderlyAt(cfg, run, c, k, n)
  }

  ghost predicate OrderlyAt(cfg: Config, run: seq<Step>, c: Contact, k: nat, n: nat)
    requires n <= |run|
  {
    |At(Exec(cfg, run[..n]).procs, InFlight(c))| <= k
  }

  /** What is in the window plus what is still on its way to the log. */
  function Load(s: State, c: Contact, lo: int, span: nat): nat {
    Window(s.db.log, c, lo, lo + span) + |At(s.procs, InFlight(c))|
  }

  /** While the window is open, what is on its way counts too; once it has closed, nothing enters it. */
  ghost predicate WithinBound(s: State, c: Contact, lo: int, span: nat, bound: int) {
    && Window(s.db.log, c, lo, lo + span) <= bound
    && (s.db.clock <= lo + span ==> Load(s, c, lo, span) <= bound)
  }

  /** A call's `now` was read from the clock. */
  predicate NowOk(clock: int, q: Proc) {
    q.ReqStarted? || q.ReqCounted? || q.ReqCooled? || q.ReqUpserted? ==> q.now <= clock
  }

  ghost predicate NowsOk(s: State) {
    forall p | p in s.procs :: NowOk(s.db.clock, s.procs[p])
  }

  lemma ActKeepsNow(cfg: Config, db: Db, q: Proc, step: Step)
    requires NowOk(db.clock, q)
    ensures var o := Act(cfg, db, q, step);
            o.db.clock == db.clock && (o.proc.Some? ==> NowOk(db.clock, o.proc.value))
  {
  }

  lemma NowsKept(cfg: Config, s: State, step: Step)
    requires NowsOk(s)
    ensures NowsOk(Next(cfg, s, step))
  {
    if !Maintains(step) && !Starts(step) && step.p in s.procs {
      ActKeepsNow(cfg, s.db, s.procs[step.p], step);
    }
  }

  /** The further a count reaches back, the more it sees. */
  lemma {:induction false} CountAntitone(log: seq<Issuance>, c: Contact, since: int, later: int)
    requires since <= later
    ensures CountSince(log, c, later) <= CountSince(log, c, since)
  {
    if log != [] {
      CountAntitone(log[..|log| - 1], c, since, later);
    }
  }

  /**
   * A count that succeeds while the window is open sees everything the window can
   * already hold, however long ago the request read the clock.
   */
  lemma CountedWindow(cfg: Config, db: Db, c: Contact, now: int, lo: int, span: nat, max: nat)
    requires LogOk(db) && IsCap(cfg, span, max) && !OverCap(cfg, db.issuances, c, now)
    requires now <= db.clock <= lo + span
    ensures Window(db.log, c, lo, lo + span) < max
  {
    assert CountSince(db.issuances, c, db.clock - span) == CountSince(db.log, c, db.clock - span);
    CountAntitone(db.issuances, c, now - span, db.clock - span);
    WindowWithinCount(db.log, c, lo, lo + span, db.clock - span);
  }

  /** Does the step write an issuance for `c`? */
  predicate Writes(q: Proc, step: Step, c: Contact) { step.WriteIssuance? && q.ReqUpserted? && q.contact == c }

  lemma ActWeight(cfg: Config, db: Db, q: Proc, step: Step, c: Contact)
    requires !step.CountCaps?
    ensures Weight(Act(cfg, db, q, step).proc, InFlight(c)) + (if Writes(q, step, c) then 1 else 0)
            <= Weight(Some(q), InFlight(c))
  {
  }

  lemma ActWindow(cfg: Config, db: Db, q: Proc, step: Step, c: Contact, lo: int, hi: int)
    ensures Window(Act(cfg, db, q, step).db.log, c, lo, hi) ==
            Window(db.log, c, lo, hi) + if Writes(q, step, c) && lo <= db.clock <= hi then 1 else 0
  {
    ActLogs(cfg, db, q, step);
    if step.WriteIssuance? && q.ReqUpserted? {
      WindowAppend(db.log, Issuance(q.contact, db.clock), c, lo, hi);
    }
  }

  /** Except for a successful cap count, no step adds to the load, and none to a window that has closed. */
  lemma ActLoad(cfg: Config, db: Db, q: Proc, step: Step, c: Contact, lo: int, hi: int)
    requires !step.CountCaps?
    ensures var o := Act(cfg, db, q, step);
            && (db.clock > hi ==> Window(o.db.log, c, lo, hi) == Window(db.log, c, lo, hi))
            && Window(o.db.log, c, lo, hi) + Weight(o.proc, InFlight(c))
               <= Window(db.log, c, lo, hi) + Weight(Some(q), InFlight(c))
  {
    ActWindow(cfg, db, q, step, c, lo, hi);
    ActWeight(cfg, db, q, step, c);
  }

  lemma CountKeepsBound(cfg: Config, s: State, p: Pid, c: Contact, k: nat, lo: int, span: nat, max: nat)
    requires LogOk(s.db) && NowsOk(s) && IsCap(cfg, span, max) && p in s.procs
    requires WithinBound(s, c, lo, span, max - 1 + k) && |At(Next(cfg, s, CountCaps(p)).procs, InFlight(c))| <= k
    ensures WithinBound(Next(cfg, s, CountCaps(p)), c, lo, span, max - 1 + k)
  {
    var q := s.procs[p];
    var o := CountCapsAct(cfg, s.db, q);
    if q.ReqStarted? && q.contact == c && o.proc.Some? {
      if s.db.clock <= lo + span {
        CountedWindow(cfg, s.db, c, q.now, lo, span, max);
      }
    } else {
      AtAfter(s.procs, p, o.proc, InFlight(c));
    }
  }

  /** An outcome that adds nothing to the load, and nothing to a closed window, keeps the bound. */
  lemma OutcomeKeepsBound(s: State, p: Pid, o: Outcome, c: Contact, bound: int, lo: int, span: nat)
    requires WithinBound(s, c, lo, span, bound) && p in s.procs && o.db.clock == s.db.clock
    requires var hi := lo + span;
             && (s.db.clock > hi ==> Window(o.db.log, c, lo, hi) == Window(s.db.log, c, lo, hi))
             && Window(o.db.log, c, lo, hi) + Weight(o.proc, InFlight(c))
                <= Window(s.db.log, c, lo, hi) + Weight(Some(s.procs[p]), InFlight(c))
    ensures WithinBound(State(o.db, SetProc(s.procs, p, o.proc)), c, lo, span, bound)
  {
    AtAfter(s.procs, p, o.proc, InFlight(c));
  }

  lemma ActKeepsBound(cfg: Config, s: State, step: Step, c: Contact, bound: int, lo: int, span: nat)
    requires NowsOk(s) && WithinBound(s, c, lo, span, bound)
    requires !Maintains(step) && !Starts(step) && !step.CountCaps? && step.p in s.procs
    ensures WithinBound(Next(cfg, s, step), c, lo, span, bound)
  {
    var q := s.procs[step.p];
    ActLoad(cfg, s.db, q, step, c, lo, lo + span);
    ActKeepsNow(cfg, s.db, q, step);
    OutcomeKeepsBound(s, step.p, Act(cfg, s.db, q, step), c, bound, lo, span);
  }

  lemma BoundKept(cfg: Config, s: State, step: Step, c: Contact, k: nat, lo: int, span: nat, max: nat)
    requires LogOk(s.db) && NowsOk(s) && IsCap(cfg, span, max)
    requires WithinBound(s, c, lo, span, max - 1 + k) && |At(Next(cfg, s, step).procs, InFlight(c))| <= k
    ensures WithinBound(Next(cfg, s, step), c, lo, span, max - 1 + k)
  {
    if Maintains(step) {
    } else if Starts(step) {
      if step.p !in s.procs {
        AtAfter(s.procs, step.p, Started(s.db, step), InFlight(c));
      }
    } else if step.p in s.procs {
      if step.CountCaps? {
        CountKeepsBound(cfg, s, step.p, c, k, lo, span, max);
      } else {
        ActKeepsBound(cfg, s, step, c, max - 1 + k, lo, span);
      }
    }
  }

  lemma OrderlyPrefix(cfg: Config, run: seq<Step>, c: Contact, k: nat)
    requires run != [] && Orderly(cfg, run, c, k)
    ensures Orderly(cfg, run[..|run| - 1], c, k)
  {
    var before := run[..|run| - 1];
    forall n | 0 <= n <= |before| ensures OrderlyAt(cfg, before, c, k, n) {
      assert before[..n] == run[..n];
      assert OrderlyAt(cfg, run, c, k, n);
    }
  }

  lemma {:induction false} LimiterInvariant(cfg: Config, run: seq<Step>, c: Contact, k: nat, lo: int, span: nat,
          max: nat)
    requires IsCap(cfg, span, max) && k >= 1 && Orderly(cfg, run, c, k)
    ensures var s := Exec(cfg, run);
            LogOk(s.db) && NowsOk(s) && WithinBound(s, c, lo, span, max - 1 + k)
  {
    if run == [] {
      assert At(INIT.procs, InFlight(c)) == {};
    } else {
      var before := run[..|run| - 1];
      var s, step := Exec(cfg, before), run[|run| - 1];
      OrderlyPrefix(cfg, run, c, k);
      LimiterInvariant(cfg, before, c, k, lo, span, max);
      assert OrderlyAt(cfg, run, c, k, |run|);
      assert run[..|run|] == run;
      LogKept(cfg, s, step);
      NowsKept(cfg, s, step);
      BoundKept(cfg, s, step, c, k, lo, span, max);
    }
  }

  /**
   * In every run with at most `k` requests for a contact between cap count and
   * issuance write, every closed window of an hour (a day) holds at most
   * `maxPerHour - 1 + k` (`maxPerDay - 1 + k`) of all issuances ever written.
   */
  lemma LimiterBound(cfg: Config, run: seq<Step>, c: Contact, k: nat, lo: int, span: nat, max: nat)
    requires IsCap(cfg, span, max) && k >= 1 && Orderly(cfg, run, c, k)
    ensures Window(Exec(cfg, run).db.log, c, lo, lo + span) <= max - 1 + k
  {
    LimiterInvariant(cfg, run, c, k, lo, span, max);
  }

  lemma {:induction false} StoredLogInvariant(cfg: Config, run: seq<Step>)
    ensures LogOk(Exec(cfg, run).db)
  {
    if run != [] {
      StoredLogInvariant(cfg, run[..|run| - 1]);
      LogKept(cfg, Exec(cfg, run[..|run| - 1]), run[|run| - 1]);
    }
  }

  /**
   * Whatever was pruned along the way, a request that counts within a day of
   * reading the clock takes the decision it would take on the never-pruned log.
   */
  lemma PruningInvisible(cfg: Config, run: seq<Step>, c: Contact, now: int)
    requires Exec(cfg, run).db.clock <= now + DAY
    ensures OverCap(cfg, Exec(cfg, run).db.issuances, c, now) <==> OverCap(cfg, Exec(cfg, run).db.log, c, now)
  {
    StoredLogInvariant(cfg, run);
    var db := Exec(cfg, run).db;
    assert CountSince(db.issuances, c, now - HOUR) == CountSince(db.log, c, now - HOUR);
    assert CountSince(db.issuances, c, now - DAY) == CountSince(db.log, c, now - DAY);
  }
}
