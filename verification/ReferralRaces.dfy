// Referral changes that overlap: every change reads its row in one step and writes
// it in another, and any number of them may be under way.
module ReferralRaces {
  import opened Common
  import opened Referrals

  /** A change that has read its row and is about to write. */
  datatype Pending = Pending(user: string, patch: Patch)

  datatype State = State(rs: Referrals, pending: map<nat, Pending>)

  datatype Step =
    | Read(p: nat, event: Event)
    | Write(p: nat)
    | Die(p: nat)

  /** What an event plans after reading; a new referral is written in one statement. */
  function Plan(rs: Referrals, e: Event): Option<Pending> {
    if e.Link? || e.user !in rs then None
    else
      var r := rs[e.user];
      var p := if e.Administrative? then Change(r, e.status, e.praemie, e.now)
               else if e.ziel == IN_PLACEMENT || e.ziel == PLACED then Advance(r, e.ziel, e.praemie, e.now)
               else None;
      if p.Some? then Some(Pending(e.user, p.value)) else None
  }

  function Next(s: State, step: Step): State {
    match step
    case Read(p, e) =>
      if e.Link? then s.(rs := AfterLink(s.rs, e.user, e.partnerId, e.candidateName))
      else if p !in s.pending && Plan(s.rs, e).Some? then s.(pending := s.pending[p := Plan(s.rs, e).value])
      else s
    case Write(p) =>
      if p in s.pending then
        State(Patched(s.rs, s.pending[p].user, Some(s.pending[p].patch)), s.pending - {p})
      else s
    case Die(p) => s.(pending := s.pending - {p})
  }

  function Exec(run: seq<Step>): State {
    if run == [] then State(map[], map[]) else Next(Exec(run[..|run| - 1]), run[|run| - 1])
  }

  /** Read and written with nothing in between, a change is the event itself. */
  lemma UndisturbedIsAfter(s: State, p: nat, e: Event)
    requires p !in s.pending
    ensures Next(Next(s, Read(p, e)), Write(p)) == s.(rs := After(s.rs, e))
  {
    var s' := Next(s, Read(p, e));
    assert s'.pending - {p} == s.pending;
  }

  // ── One step ────────────────────────────────────────────────────────────────

  /** The step keeps the ledger in order and every payout standing. */
  ghost predicate Sound(s: State, s': State) {
    && LedgerOk(s'.rs)
    && forall u | u in s.rs :: u in s'.rs && PayoutStands(s.rs[u], s'.rs[u])
  }

  /** A write still fits the row it meets. */
  predicate Fits(s: State, step: Step) {
    step.Write? && step.p in s.pending && s.pending[step.p].user in s.rs ==>
      StillFits(s.rs[s.pending[step.p].user], s.pending[step.p].patch)
  }

  ghost predicate WasPlanned(p: Patch) {
    exists r, ziel, praemie, now :: ReferralOk(r) && PlannedFrom(r, p, ziel, praemie, now)
  }

  ghost predicate AllPlanned(s: State) { forall p | p in s.pending :: WasPlanned(s.pending[p].patch) }

  lemma PlansArePlanned(rs: Referrals, e: Event)
    requires LedgerOk(rs) && Plan(rs, e).Some?
    ensures WasPlanned(Plan(rs, e).value.patch)
  {
    var ziel := if e.Administrative? then e.status else e.ziel;
    assert ReferralOk(rs[e.user]) && PlannedFrom(rs[e.user], Plan(rs, e).value.patch, ziel, e.praemie, e.now);
  }

  lemma StepIsSoundIff(s: State, step: Step)
    requires LedgerOk(s.rs) && AllPlanned(s)
    ensures Sound(s, Next(s, step)) <==> Fits(s, step)
    ensures AllPlanned(Next(s, step))
  {
    match step
    case Read(p, e) =>
      if e.Link? {
        EventKeeps(s.rs, e, e.user);
      } else if p !in s.pending && Plan(s.rs, e).Some? {
        PlansArePlanned(s.rs, e);
      }
    case Write(p) =>
      if p in s.pending && s.pending[p].user in s.rs {
        WriteIsSoundIff(s, p);
      }
    case Die(p) =>
  }

  lemma WriteIsSoundIff(s: State, p: nat)
    requires LedgerOk(s.rs) && AllPlanned(s) && p in s.pending && s.pending[p].user in s.rs
    ensures Sound(s, Next(s, Write(p))) <==> StillFits(s.rs[s.pending[p].user], s.pending[p].patch)
  {
    var user, patch := s.pending[p].user, s.pending[p].patch;
    assert WasPlanned(patch);
    var r, ziel, praemie, now :| ReferralOk(r) && PlannedFrom(r, patch, ziel, praemie, now);
    LateWriteIff(r, s.rs[user], patch, ziel, praemie, now);
    var s' := Next(s, Write(p));
    assert s'.rs[user] == Apply(s.rs[user], patch);
    assert forall u | u in s.rs && u != user :: s'.rs[u] == s.rs[u];
  }

  // ── Every run ───────────────────────────────────────────────────────────────

  ghost predicate SoundAt(run: seq<Step>, n: nat)
    requires n < |run|
  {
    Sound(Exec(run[..n]), Exec(run[..n + 1]))
  }

  predicate FitsAt(run: seq<Step>, n: nat)
    requires n < |run|
  {
    Fits(Exec(run[..n]), run[n])
  }

  ghost predicate AllSound(run: seq<Step>) { forall n | 0 <= n < |run| :: SoundAt(run, n) }

  ghost predicate AllFit(run: seq<Step>) { forall n | 0 <= n < |run| :: FitsAt(run, n) }

  lemma SoundAtIff(run: seq<Step>, n: nat)
    requires n < |run| && LedgerOk(Exec(run[..n]).rs) && AllPlanned(Exec(run[..n]))
    ensures SoundAt(run, n) <==> FitsAt(run, n)
    ensures AllPlanned(Exec(run[..n + 1])) && (SoundAt(run, n) ==> LedgerOk(Exec(run[..n + 1]).rs))
  {
    assert run[..n + 1][..n] == run[..n];
    StepIsSoundIff(Exec(run[..n]), run[n]);
  }

  /** As long as every write fits, or every step is sound, the ledger is in order. */
  lemma {:induction false} InOrder(run: seq<Step>, n: nat)
    requires n <= |run| && (AllFit(run) || AllSound(run))
    ensures LedgerOk(Exec(run[..n]).rs) && AllPlanned(Exec(run[..n]))
  {
    if n > 0 {
      InOrder(run, n - 1);
      SoundAtIff(run, n - 1);
    }
  }

  /**
   * However the changes overlap: throughout a run the ledger stays in order and
   * no payout is undone or altered exactly when every write fits the row it meets.
   */
  lemma OverlapIff(run: seq<Step>)
    ensures AllSound(run) <==> AllFit(run)
  {
    if AllSound(run) || AllFit(run) {
      forall n | 0 <= n < |run| ensures SoundAt(run, n) <==> FitsAt(run, n) {
        InOrder(run, n);
        SoundAtIff(run, n);
      }
    }
  }
}
