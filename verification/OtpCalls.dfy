// What a request and a verification mean to the person who makes them: when they
// are refused, how long a code works, how many guesses there are, when a code can
// be sent again.
module OtpCalls {
  import opened Common
  import opened OtpLimiter
  import opened OtpProtocol
  import opened OtpService

  // ── When a request is refused ───────────────────────────────────────────────

  /** The entries of the log for `c` from `since` on, as positions. */
  function SentSince(log: seq<Issuance>, c: Contact, since: int): set<int> {
    set i | 0 <= i < |log| && log[i].contact == c && log[i].at >= since
  }

  lemma OneMoreSent(log: seq<Issuance>, e: Issuance, c: Contact, since: int)
    ensures |SentSince(log + [e], c, since)|
            == |SentSince(log, c, since)| + if e.contact == c && e.at >= since then 1 else 0
  {
    var more := log + [e];
    var last := if e.contact == c && e.at >= since then {|log|} else {};
    forall i ensures i in SentSince(more, c, since) <==> i in SentSince(log, c, since) + last {
      assert 0 <= i < |log| ==> more[i] == log[i];
    }
    assert SentSince(more, c, since) == SentSince(log, c, since) + last;
  }

  lemma {:induction false} CountIsCard(log: seq<Issuance>, c: Contact, since: int)
    ensures CountSince(log, c, since) == |SentSince(log, c, since)|
  {
    if log != [] {
      var n := |log| - 1;
      CountIsCard(log[..n], c, since);
      OneMoreSent(log[..n], log[n], c, since);
      assert log[..n] + [log[n]] == log;
    }
  }

  /** Too many in the last hour, too many in the last 24 hours, or too soon after the challenge there is. */
  lemma RequestRefusedIff(cfg: Config, t: Tables, c: Contact, channel: Channel, now: int, code: Code, delivered: bool)
    ensures var (t', result) := AfterRequest(cfg, t, c, channel, now, code, delivered);
            && (result == TooMany <==>
                  || |SentSince(t.issuances, c, now - 3_600_000)| >= cfg.maxPerHour
                  || |SentSince(t.issuances, c, now - 86_400_000)| >= cfg.maxPerDay
                  || (c in t.challenges && now < t.challenges[c].createdAt + cfg.cooldownMs))
            && (result == TooMany ==> t' == t)
  {
    CountIsCard(t.issuances, c, now - 3_600_000);
    CountIsCard(t.issuances, c, now - 86_400_000);
  }

  /** The first request at `now`, let through. */
  ghost predicate LetThrough(cfg: Config, t: Tables, c: Contact, now: int) {
    !OverCap(cfg, t.issuances, c, now) && !CoolingDown(cfg, t.challenges, c, now)
  }

  /** What a request that was let through leaves for the next one to find. */
  lemma LetThroughLeaves(cfg: Config, t: Tables, c: Contact, channel: Channel, now: int, code: Code, delivered: bool)
    requires LetThrough(cfg, t, c, now)
    ensures var t' := AfterRequest(cfg, t, c, channel, now, code, delivered).0;
            && t'.issuances == t.issuances + [Issuance(c, now)]
            && (c in t'.challenges <==> delivered)
            && (delivered ==> t'.challenges[c].createdAt == now)
  {
  }

  /**
   * After a request that was let through, the next one is held up by the cooldown
   * only if the first was delivered; either way the first counts against the caps.
   */
  lemma NextRequestRefusedIff(cfg: Config, t: Tables, c: Contact, channel: Channel, now: int, code: Code,
          delivered: bool, again: int, more: Code)
    requires LetThrough(cfg, t, c, now) && again >= now
    ensures var t' := AfterRequest(cfg, t, c, channel, now, code, delivered).0;
            var hour := |SentSince(t.issuances, c, again - 3_600_000)| + if again - now <= 3_600_000 then 1 else 0;
            var day := |SentSince(t.issuances, c, again - 86_400_000)| + if again - now <= 86_400_000 then 1 else 0;
            AfterRequest(cfg, t', c, channel, again, more, true).1 == TooMany <==>
            hour >= cfg.maxPerHour || day >= cfg.maxPerDay || (delivered && again - now < cfg.cooldownMs)
  {
    var t' := AfterRequest(cfg, t, c, channel, now, code, delivered).0;
    LetThroughLeaves(cfg, t, c, channel, now, code, delivered);
    OneMoreSent(t.issuances, Issuance(c, now), c, again - 3_600_000);
    OneMoreSent(t.issuances, Issuance(c, now), c, again - 86_400_000);
    RequestRefusedIff(cfg, t', c, channel, again, more, true);
  }

  // ── When a verification succeeds ────────────────────────────────────────────

  /**
   * A token comes out exactly for the code of an unconsumed challenge sent on this
   * channel, before it expires and while guesses are left; it holds for 15 minutes.
   */
  lemma VerifyAcceptsIff(cfg: Config, t: Tables, c: Contact, channel: Channel, now: int, code: Code)
    ensures var (t', token) := AfterVerify(cfg, t, c, channel, now, code);
            && (token.Some? <==>
                  && c in t.challenges && t.challenges[c].channel == channel
                  && !t.challenges[c].consumed && now < t.challenges[c].expiresAt
                  && t.challenges[c].attempts < t.challenges[c].maxAttempts
                  && t.challenges[c].codeHash == cfg.hash(c, code))
            && (token.Some? ==> token.value == Token(c, channel, now + 900_000) && c !in t'.challenges)
  {
  }

  /** A verification without success leaves the challenge with a guess less, or if it is dead removes it. */
  lemma VerifyFailureLeaves(cfg: Config, t: Tables, c: Contact, channel: Channel, now: int, code: Code)
    requires c in t.challenges && AfterVerify(cfg, t, c, channel, now, code).1.None?
    ensures var t', row := AfterVerify(cfg, t, c, channel, now, code).0, t.challenges[c];
            && t'.issuances == t.issuances && t'.used == t.used && t'.nextId == t.nextId
            && t'.challenges - {c} == t.challenges - {c}
            && (row.channel != channel ==> t' == t)
            && (row.channel == channel ==>
                  if row.consumed || row.expiresAt <= now || row.attempts >= row.maxAttempts then c !in t'.challenges
                  else c in t'.challenges && t'.challenges[c] == row.(attempts := row.attempts + 1))
  {
  }

  // ── From the request to the token ───────────────────────────────────────────

  /** One call to verify, with whatever was typed in. */
  datatype Guess = Guess(channel: Channel, now: int, code: Code)

  /** The tables after guesses made one after the other. */
  function AfterGuesses(cfg: Config, t: Tables, c: Contact, guesses: seq<Guess>): Tables {
    if guesses == [] then t
    else
      var g, before := guesses[|guesses| - 1], AfterGuesses(cfg, t, c, guesses[..|guesses| - 1]);
      AfterVerify(cfg, before, c, g.channel, g.now, g.code).0
  }

  /** Guesses on the right channel, in time, each with another code. */
  ghost predicate WrongGuesses(cfg: Config, c: Contact, channel: Channel, code: Code, until: int, guesses: seq<Guess>) {
    forall g | g in guesses :: g.channel == channel && g.now < until && cfg.hash(c, g.code) != cfg.hash(c, code)
  }

  /** Each wrong guess costs one attempt; the one after the last takes the challenge away. */
  lemma {:induction false} GuessesCost(cfg: Config, t: Tables, c: Contact, guesses: seq<Guess>)
    requires c in t.challenges && !t.challenges[c].consumed && t.challenges[c].attempts == 0
    requires forall g | g in guesses ::
               && g.channel == t.challenges[c].channel && g.now < t.challenges[c].expiresAt
               && cfg.hash(c, g.code) != t.challenges[c].codeHash
    ensures var t' := AfterGuesses(cfg, t, c, guesses);
            if |guesses| <= t.challenges[c].maxAttempts
            then c in t'.challenges && t'.challenges[c] == t.challenges[c].(attempts := |guesses|)
            else c !in t'.challenges
  {
    if guesses != [] {
      var n := |guesses| - 1;
      assert guesses[n] in guesses && forall g | g in guesses[..n] :: g in guesses;
      GuessesCost(cfg, t, c, guesses[..n]);
    }
  }

  /**
   * A requested code yields a token exactly if it was delivered and is entered on
   * its channel less than `ttlMs` after the request, with fewer wrong guesses
   * before it than there are attempts.
   */
  lemma CodeWorksIff(cfg: Config, t: Tables, c: Contact, channel: Channel, now: int, code: Code, delivered: bool,
          guesses: seq<Guess>, entered: Guess)
    requires LetThrough(cfg, t, c, now) && WrongGuesses(cfg, c, channel, code, now + cfg.ttlMs, guesses)
    ensures var requested := AfterRequest(cfg, t, c, channel, now, code, delivered).0;
            var t' := AfterGuesses(cfg, requested, c, guesses);
            AfterVerify(cfg, t', c, entered.channel, entered.now, entered.code).1.Some? <==>
            && delivered && entered.channel == channel && cfg.hash(c, entered.code) == cfg.hash(c, code)
            && entered.now < now + cfg.ttlMs && |guesses| < cfg.maxAttempts
  {
    var requested := AfterRequest(cfg, t, c, channel, now, code, delivered).0;
    if delivered {
      GuessesCost(cfg, requested, c, guesses);
    } else {
      NothingToGuess(cfg, requested, c, guesses);
    }
  }

  lemma {:induction false} NothingToGuess(cfg: Config, t: Tables, c: Contact, guesses: seq<Guess>)
    requires c !in t.challenges
    ensures AfterGuesses(cfg, t, c, guesses) == t
  {
    if guesses != [] {
      NothingToGuess(cfg, t, c, guesses[..|guesses| - 1]);
    }
  }

  // ── The hourly prune ────────────────────────────────────────────────────────

  /** The prune of the object is the three deletions of the protocol. */
  lemma PruneIsARun(db: Db, now: int)
    requires now <= db.clock
    ensures var challenges := Maintained(db, PruneChallenges(now));
            var tokens := Maintained(challenges, PruneTokens(now));
            TablesOf(Maintained(tokens, PruneIssuances(now))) == AfterPrune(TablesOf(db), now)
  {
  }

  /**
   * No later call notices the prune: a verification succeeds as it would have, the
   * caps count the same, and a nonce that is still of use stays used. What it
   * leaves has not expired an hour before, or for a nonce at all.
   */
  lemma PruneUnnoticed(cfg: Config, t: Tables, now: int, c: Contact, channel: Channel, later: int, code: Code, jti: Jti)
    requires later >= now
    ensures var t' := AfterPrune(t, now);
            && AfterVerify(cfg, t', c, channel, later, code).1 == AfterVerify(cfg, t, c, channel, later, code).1
            && (OverCap(cfg, t'.issuances, c, later) <==> OverCap(cfg, t.issuances, c, later))
            && (jti in t.used && later <= t.used[jti] ==> jti in t'.used && t'.used[jti] == t.used[jti])
            && (forall d | d in t'.challenges :: t'.challenges[d].expiresAt >= now - 3_600_000)
            && (forall j | j in t'.used :: t'.used[j] >= now)
  {
    PruneKeepsCount(t.issuances, c, later - 3_600_000, now);
    PruneKeepsCount(t.issuances, c, later - 86_400_000, now);
  }
}
