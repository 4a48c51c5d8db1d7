// Single redemption of a verification token, although used nonces are pruned.
//
// The signature and expiry check happens when a submission arrives, the insert
// of the nonce when it commits. Between the two, files are uploaded (or a
// password is hashed) and the prune may run.
module OtpTokens {
  import opened Common
  import opened OtpProtocol
  import opened OtpConservation

  // ── The invariant ───────────────────────────────────────────────────────────

  /** A redeemed nonce is still stored, or its token can no longer be presented. */
  ghost predicate NonceOk(db: Db, j: Jti) {
    && db.redeemed[j] <= 1
    && (db.redeemed[j] == 1 ==>
          j in db.minted && ((j in db.used && db.used[j] == db.minted[j].exp) || db.clock > db.minted[j].exp))
  }

  /** A submission that was let in carries the expiry of the minted token. */
  ghost predicate HeldOk(db: Db, q: Proc) {
    q.RedChecked? ==> q.jti in db.minted && q.exp == db.minted[q.jti].exp
  }

  ghost predicate TokensOk(s: State) {
    && (forall j :: NonceOk(s.db, j))
    && (forall p | p in s.procs :: HeldOk(s.db, s.procs[p]))
  }

  lemma ActKeepsNonces(cfg: Config, db: Db, q: Proc, step: Step, j: Jti)
    requires NonceOk(db, j) && HeldOk(db, q)
    requires step.Redeem? && q.RedChecked? ==> db.clock <= q.exp
    ensures NonceOk(Act(cfg, db, q, step).db, j)
  {
  }

  lemma ActKeepsTokens(cfg: Config, db: Db, q: Proc, step: Step)
    requires HeldOk(db, q)
    ensures var o := Act(cfg, db, q, step);
            && (forall j | j in db.minted :: j in o.db.minted && o.db.minted[j] == db.minted[j])
            && (o.proc.Some? ==> HeldOk(o.db, o.proc.value))
  {
  }

  lemma TokensKept(cfg: Config, s: State, step: Step)
    requires TokensOk(s)
    requires step.Redeem? && step.p in s.procs && s.procs[step.p].RedChecked? ==> s.db.clock <= s.procs[step.p].exp
    ensures TokensOk(Next(cfg, s, step))
  {
    var s' := Next(cfg, s, step);
    if !Maintains(step) && !Starts(step) && step.p in s.procs {
      var q := s.procs[step.p];
      ActKeepsTokens(cfg, s.db, q, step);
      forall j ensures NonceOk(s'.db, j) {
        ActKeepsNonces(cfg, s.db, q, step, j);
      }
      forall p | p in s'.procs ensures HeldOk(s'.db, s'.procs[p]) {
        if p != step.p {
          assert HeldOk(s.db, s.procs[p]);
        }
      }
    } else {
      forall j ensures NonceOk(s'.db, j) {
        assert NonceOk(s.db, j);
      }
      forall p | p in s'.procs ensures HeldOk(s'.db, s'.procs[p]) {
        if p in s.procs {
          assert HeldOk(s.db, s.procs[p]);
        }
      }
    }
  }

  // ── How late a submission may commit ────────────────────────────────────────

  /** Every redemption commits at most `slack` ms after the expiry of the token it was let in with. */
  ghost predicate CommitsWithin(cfg: Config, run: seq<Step>, slack: int) {
    forall n | 0 <= n < |run| :: CommitInTime(cfg, run, slack, n)
  }

  ghost predicate CommitInTime(cfg: Config, run: seq<Step>, slack: int, n: nat)
    requires n < |run|
  {
    var s := Exec(cfg, run[..n]);
    (run[n].Redeem? && run[n].p in s.procs && s.procs[run[n].p].RedChecked?) ==>
      s.db.clock <= s.procs[run[n].p].exp + slack
  }

  lemma {:induction false} TokenInvariant(cfg: Config, run: seq<Step>)
    requires CommitsWithin(cfg, run, 0)
    ensures TokensOk(Exec(cfg, run))
  {
    if run != [] {
      var before := run[..|run| - 1];
      forall n | 0 <= n < |before| ensures CommitInTime(cfg, before, 0, n) {
        assert before[..n] == run[..n] && CommitInTime(cfg, run, 0, n);
      }
      TokenInvariant(cfg, before);
      assert CommitInTime(cfg, run, 0, |run| - 1);
      TokensKept(cfg, Exec(cfg, before), run[|run| - 1]);
    }
  }

  /** In runs that commit by the expiry, no nonce is redeemed twice, and every redeemed nonce was minted. */
  lemma SingleRedemption(cfg: Config, run: seq<Step>, j: Jti)
    requires CommitsWithin(cfg, run, 0)
    ensures Exec(cfg, run).db.redeemed[j] <= 1
    ensures j in Exec(cfg, run).db.redeemed ==> j in Exec(cfg, run).db.minted
  {
    TokenInvariant(cfg, run);
    assert NonceOk(Exec(cfg, run).db, j);
  }

  function RedeemedFor(db: Db, c: Contact): set<Jti> {
    set j | j in MintedFor(db, c) && j in db.redeemed
  }

  /** Per contact: redemptions at most tokens, tokens at most wins, wins at most issued challenges. */
  lemma RedemptionChain(cfg: Config, run: seq<Step>, c: Contact)
    requires CommitsWithin(cfg, run, 0)
    ensures var db := Exec(cfg, run).db;
            && (forall j | j in RedeemedFor(db, c) :: db.redeemed[j] == 1)
            && |RedeemedFor(db, c)| <= |MintedFor(db, c)| <= db.won[c] <= db.upserts[c]
  {
    var db := Exec(cfg, run).db;
    TokenInvariant(cfg, run);
    forall j | j in RedeemedFor(db, c) ensures db.redeemed[j] == 1 {
      assert NonceOk(db, j);
    }
    SubsetCard(RedeemedFor(db, c), MintedFor(db, c));
    OtpConserved(cfg, run, c);
  }
}
