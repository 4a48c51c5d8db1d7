// The referral ledger: how a referral moves between its states and what it is
// worth. Changing one reads the row and then writes some of its fields; a patch
// is what such a write carries.
module Referrals {
  import opened Common

  datatype Status = REGISTERED | IN_PLACEMENT | PLACED | PAID

  datatype Referral = Referral(partnerId: string, candidateName: string, status: Status, rewardCents: nat,
                               placedAt: Option<int>, paidAt: Option<int>)

  /** The fields a write carries; None leaves a field alone. */
  datatype Patch = Patch(
    status: Status,
    rewardCents: Option<nat>,
    placedAt: Option<Option<int>>,
    paidAt: Option<Option<int>>)

  function Rang(s: Status): nat {
    match s
    case REGISTERED => 0
    case IN_PLACEMENT => 1
    case PLACED => 2
    case PAID => 3
  }

  function OrElse<T>(v: Option<T>, otherwise: T): T { if v.Some? then v.value else otherwise }

  function Apply(r: Referral, p: Patch): Referral {
    r.(status := p.status,
       rewardCents := OrElse(p.rewardCents, r.rewardCents),
       placedAt := OrElse(p.placedAt, r.placedAt),
       paidAt := OrElse(p.paidAt, r.paidAt))
  }

  /** What an application or a placement event writes, having read `r`; only forward. */
  function Advance(r: Referral, ziel: Status, praemie: nat, now: int): Option<Patch> {
    if r.paidAt.Some? || Rang(r.status) >= Rang(ziel) then None
    else if ziel == PLACED then Some(Patch(ziel, Some(praemie), Some(Some(OrElse(r.placedAt, now))), None))
    else Some(Patch(ziel, None, None, None))
  }

  /** What the administration writes, having read `r`; None is the conflict with a payout. */
  function Change(r: Referral, status: Status, praemie: nat, now: int): Option<Patch> {
    if r.paidAt.Some? && status != PAID then None
    else
      match status
      case PLACED => Some(Patch(status, Some(praemie), Some(Some(OrElse(r.placedAt, now))), None))
      case PAID =>
        Some(Patch(status, Some(if r.rewardCents != 0 then r.rewardCents else praemie),
                   Some(Some(OrElse(r.placedAt, now))), Some(Some(now))))
      case _ => Some(Patch(status, Some(0), Some(None), Some(None)))
  }

  // ── What every referral satisfies ───────────────────────────────────────────

  predicate ReferralOk(r: Referral) {
    && (r.status == PAID <==> r.paidAt.Some?)
    && (Placed(r) ==> r.placedAt.Some?)
    && (!Placed(r) ==> r.rewardCents == 0 && r.placedAt.None?)
  }

  predicate Placed(r: Referral) { r.status == PLACED || r.status == PAID }

  /** A payout is never undone, and its amount never changed once there is one. */
  predicate PayoutStands(r: Referral, r': Referral) {
    r.status == PAID ==> r'.status == PAID && (r.rewardCents != 0 ==> r'.rewardCents == r.rewardCents)
  }

  /** Either path may have planned the patch from this reading. */
  predicate PlannedFrom(r: Referral, p: Patch, ziel: Status, praemie: nat, now: int) {
    || Change(r, ziel, praemie, now) == Some(p)
    || ((ziel == IN_PLACEMENT || ziel == PLACED) && Advance(r, ziel, praemie, now) == Some(p))
  }

  /** Written at once, or with nothing in between, a change keeps the ledger in order. */
  lemma PromptWriteKeeps(r: Referral, p: Patch, ziel: Status, praemie: nat, now: int)
    requires ReferralOk(r) && PlannedFrom(r, p, ziel, praemie, now)
    ensures ReferralOk(Apply(r, p)) && PayoutStands(r, Apply(r, p)) && Apply(r, p).partnerId == r.partnerId
  {
  }

  // ── Late writes ─────────────────────────────────────────────────────────────

  /** When a write planned from an older reading still fits the row it meets. */
  predicate StillFits(now: Referral, p: Patch) {
    match p.status
    case REGISTERED => now.status != PAID
    case IN_PLACEMENT =>
      now.status == REGISTERED || now.status == IN_PLACEMENT || (now.status == PLACED && p.rewardCents.Some?)
    case PLACED => now.status != PAID
    case PAID => now.status == PAID && now.rewardCents != 0 ==> p.rewardCents == Some(now.rewardCents)
  }

  /**
   * Between reading and writing the row may change. The late write keeps the
   * ledger in order and every payout standing exactly when it still fits.
   */
  lemma LateWriteIff(read: Referral, met: Referral, p: Patch, ziel: Status, praemie: nat, now: int)
    requires ReferralOk(read) && ReferralOk(met) && PlannedFrom(read, p, ziel, praemie, now)
    ensures ReferralOk(Apply(met, p)) && PayoutStands(met, Apply(met, p)) <==> StillFits(met, p)
  {
  }

  /** A placement event that read the row before the payout leaves a paid row marked as merely placed. */
  lemma LateWriteUndoesPayout(partner: string, name: string)
    ensures var read := Referral(partner, name, IN_PLACEMENT, 0, None, None);
            var met := Referral(partner, name, PAID, 25000, Some(10), Some(20));
            && ReferralOk(read) && ReferralOk(met) && Advance(read, PLACED, 25000, 30).Some?
            && var after := Apply(met, Advance(read, PLACED, 25000, 30).value);
            after.status == PLACED && after.paidAt.Some? && !ReferralOk(after)
  {
  }

  // ── The ledger ──────────────────────────────────────────────────────────────

  /** One referral for each referred user. */
  type Referrals = map<string, Referral>

  datatype Event =
    | Link(user: string, partnerId: string, candidateName: string)
    | Automatic(user: string, ziel: Status, praemie: nat, now: int)
    | Administrative(user: string, status: Status, praemie: nat, now: int)

  function AfterLink(rs: Referrals, user: string, partnerId: string, candidateName: string): Referrals {
    rs[user := if user in rs then rs[user].(candidateName := candidateName)
               else Referral(partnerId, candidateName, REGISTERED, 0, None, None)]
  }

  function Patched(rs: Referrals, user: string, p: Option<Patch>): Referrals {
    if user in rs && p.Some? then rs[user := Apply(rs[user], p.value)] else rs
  }

  function After(rs: Referrals, e: Event): Referrals {
    match e
    case Link(user, partnerId, name) => AfterLink(rs, user, partnerId, name)
    case Automatic(user, ziel, praemie, now) =>
      if user in rs && (ziel == IN_PLACEMENT || ziel == PLACED)
      then Patched(rs, user, Advance(rs[user], ziel, praemie, now))
      else rs
    case Administrative(user, status, praemie, now) =>
      if user in rs then Patched(rs, user, Change(rs[user], status, praemie, now)) else rs
  }

  function AfterAll(rs: Referrals, es: seq<Event>): Referrals {
    if es == [] then rs else After(AfterAll(rs, es[..|es| - 1]), es[|es| - 1])
  }

  ghost predicate LedgerOk(rs: Referrals) { forall u | u in rs :: ReferralOk(rs[u]) }

  lemma EventKeeps(rs: Referrals, e: Event, user: string)
    requires LedgerOk(rs)
    ensures LedgerOk(After(rs, e))
    ensures user in rs ==> user in After(rs, e) && PayoutStands(rs[user], After(rs, e)[user])
                           && After(rs, e)[user].partnerId == rs[user].partnerId
  {
  }

  /**
   * In every run each referral is paid exactly if it has a payout date, placed
   * ones have a date, earlier ones are worth nothing; payouts stand for good, and
   * no referral ever changes hands.
   */
  lemma {:induction false} LedgerInEveryRun(rs: Referrals, es: seq<Event>, user: string)
    requires LedgerOk(rs)
    ensures LedgerOk(AfterAll(rs, es))
    ensures user in rs ==> user in AfterAll(rs, es) && PayoutStands(rs[user], AfterAll(rs, es)[user])
                           && AfterAll(rs, es)[user].partnerId == rs[user].partnerId
  {
    if es != [] {
      var n := |es| - 1;
      LedgerInEveryRun(rs, es[..n], user);
      EventKeeps(AfterAll(rs, es[..n]), es[n], user);
    }
  }

  // ── What an event does ──────────────────────────────────────────────────────

  /** An application moves a registration on, a placement whatever was not placed yet, and neither anything else. */
  lemma AutomaticMoves(rs: Referrals, user: string, ziel: Status, praemie: nat, now: int)
    requires LedgerOk(rs) && user in rs && (ziel == IN_PLACEMENT || ziel == PLACED)
    ensures var r := rs[user];
            After(rs, Automatic(user, ziel, praemie, now)) == rs[user :=
              if ziel == IN_PLACEMENT && r.status == REGISTERED then r.(status := IN_PLACEMENT)
              else if ziel == PLACED && (r.status == REGISTERED || r.status == IN_PLACEMENT)
              then r.(status := PLACED, rewardCents := praemie, placedAt := Some(now))
              else r]
  {
    assert ReferralOk(rs[user]);
  }

  /**
   * What the administration places is worth the reward of the day; placing it
   * again changes that but not the date; taking it back leaves what a mere
   * registration or application is; paying it out keeps a reward there is.
   */
  lemma AdministrationMoves(rs: Referrals, user: string, praemie: nat, now: int, later: nat, again: int,
          zurueck: Status)
    requires LedgerOk(rs) && user in rs && rs[user].status != PAID
    requires zurueck == REGISTERED || zurueck == IN_PLACEMENT
    ensures var r, placed := rs[user], After(rs, Administrative(user, PLACED, praemie, now));
            var replaced := After(placed, Administrative(user, PLACED, later, again));
            var back := After(placed, Administrative(user, zurueck, later, again));
            var paid := After(rs, Administrative(user, PAID, praemie, now));
            && user in placed && placed[user] == r.(status := PLACED, rewardCents := praemie,
                 placedAt := Some(if Placed(r) then r.placedAt.value else now))
            && user in replaced && replaced[user] == placed[user].(rewardCents := later)
            && user in back && back[user] == Referral(r.partnerId, r.candidateName, zurueck, 0, None, None)
            && user in paid && paid[user] == r.(status := PAID, paidAt := Some(now),
                 rewardCents := if r.rewardCents != 0 then r.rewardCents else praemie,
                 placedAt := Some(if Placed(r) then r.placedAt.value else now))
  {
    assert ReferralOk(rs[user]);
  }

  // ── What a placement is worth ───────────────────────────────────────────────

  predicate IsAutomatic(e: Event) { !e.Administrative? }

  /** Once placed, no registration or automatic event touches state, reward or dates; only the administration does. */
  lemma {:induction false} AutomaticLeavesPlaced(rs: Referrals, es: seq<Event>, user: string)
    requires user in rs && Placed(rs[user]) && forall i | 0 <= i < |es| :: IsAutomatic(es[i])
    ensures user in AfterAll(rs, es)
    ensures AfterAll(rs, es)[user] == rs[user].(candidateName := AfterAll(rs, es)[user].candidateName)
  {
    if es != [] {
      AutomaticLeavesPlaced(rs, es[..|es| - 1], user);
    }
  }

  /**
   * A referral is paid what a placement was worth when it happened: whatever the
   * reward is by the time of the payout, and whatever automatic events lie between.
   */
  lemma PaidAsPlaced(rs: Referrals, user: string, praemie: nat, placed: int, between: seq<Event>, later: nat, paid: int)
    requires LedgerOk(rs) && user in rs && !Placed(rs[user]) && praemie > 0
    requires forall i | 0 <= i < |between| :: IsAutomatic(between[i])
    ensures var after := AfterAll(After(rs, Automatic(user, PLACED, praemie, placed)), between);
            var end := After(after, Administrative(user, PAID, later, paid));
            && user in end && end[user].status == PAID
            && end[user].rewardCents == praemie && end[user].placedAt == Some(placed) && end[user].paidAt == Some(paid)
  {
    AutomaticLeavesPlaced(After(rs, Automatic(user, PLACED, praemie, placed)), between, user);
  }

  /**
   * From the registration to the payout: a candidate starts as registered, worth
   * nothing; another partner's link only changes the name; the rest follows.
   */
  lemma RegistrationToPayout(rs: Referrals, user: string, partner: string, other: string, first: string, name: string,
          praemie: nat, applied: int, placed: int, paid: int)
    requires LedgerOk(rs) && user !in rs && praemie > 0
    ensures var linked := After(rs, Link(user, partner, first));
            var renamed := After(linked, Link(user, other, name));
            var working := After(renamed, Automatic(user, IN_PLACEMENT, praemie, applied));
            var done := After(working, Automatic(user, PLACED, praemie, placed));
            && linked == rs[user := Referral(partner, first, REGISTERED, 0, None, None)]
            && renamed == rs[user := Referral(partner, name, REGISTERED, 0, None, None)]
            && working == rs[user := Referral(partner, name, IN_PLACEMENT, 0, None, None)]
            && After(done, Administrative(user, PAID, praemie, paid))
               == rs[user := Referral(partner, name, PAID, praemie, Some(placed), Some(paid))]
  {
    var linked := After(rs, Link(user, partner, first));
    assert After(linked, Link(user, other, name)) == rs[user := Referral(partner, name, REGISTERED, 0, None, None)];
  }

  datatype ChangeResult = CHANGED(status: Status, rewardCents: nat) | NOT_FOUND | CONFLICT

  class Ledger {
    var referrals: Referrals

    ghost predicate Valid()
      reads this
    {
      LedgerOk(referrals)
    }

    constructor ()
      ensures Valid() && referrals == map[]
    {
      referrals := map[];
    }

    method LinkReferral(user: string, partnerId: string, candidateName: string)
      requires Valid()
      modifies this
      ensures Valid() && referrals == AfterLink(old(referrals), user, partnerId, candidateName)
    {
      if user in referrals {
        referrals := referrals[user := referrals[user].(candidateName := candidateName)];
      } else {
        referrals := referrals[user := Referral(partnerId, candidateName, REGISTERED, 0, None, None)];
      }
    }

    /** Called for the two forward moves only. */
    method Fortschreiben(user: string, ziel: Status, praemie: nat, now: int)
      requires Valid() && (ziel == IN_PLACEMENT || ziel == PLACED)
      modifies this
      ensures Valid() && referrals == After(old(referrals), Automatic(user, ziel, praemie, now))
    {
      EventKeeps(referrals, Automatic(user, ziel, praemie, now), user);
      if user !in referrals || referrals[user].paidAt.Some? {
        return;
      }
      var ref := referrals[user];
      if Rang(ref.status) >= Rang(ziel) {
        return;
      }
      var data := Patch(ziel, None, None, None);
      if ziel == PLACED {
        data := data.(rewardCents := Some(praemie), placedAt := Some(Some(OrElse(ref.placedAt, now))));
      }
      referrals := referrals[user := Apply(ref, data)];
    }

    /** A payout cannot be reverted; whatever is stored is reported. */
    method SetReferralStatus(user: string, status: Status, praemie: nat, now: int) returns (r: ChangeResult)
      requires Valid()
      modifies this
      ensures Valid() && referrals == After(old(referrals), Administrative(user, status, praemie, now))
      ensures r.NOT_FOUND? <==> user !in old(referrals)
      ensures r.CONFLICT? <==> user in old(referrals) && old(referrals)[user].status == PAID && status != PAID
      ensures r.CHANGED? ==>
                r.status == status == referrals[user].status && r.rewardCents == referrals[user].rewardCents
    {
      EventKeeps(referrals, Administrative(user, status, praemie, now), user);
      if user !in referrals {
        return NOT_FOUND;
      }
      var ref := referrals[user];
      assert ReferralOk(ref);
      if ref.paidAt.Some? && status != PAID {
        return CONFLICT;
      }
      var data := Patch(status, Some(0), Some(None), Some(None));
      if status == PLACED {
        data := Patch(status, Some(praemie), Some(Some(OrElse(ref.placedAt, now))), None);
      } else if status == PAID {
        data := Patch(status, Some(if ref.rewardCents != 0 then ref.rewardCents else praemie),
                      Some(Some(OrElse(ref.placedAt, now))), Some(Some(now)));
      }
      referrals := referrals[user := Apply(ref, data)];
      return CHANGED(referrals[user].status, referrals[user].rewardCents);
    }
  }
}
