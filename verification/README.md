# PortaWerk core logic, modelled and proved in Dafny

PortaWerk lets tradespeople register, matches them with job postings, and pays partners for
referrals. This project models the decision logic of its backend and proves what that logic
guarantees. `dafny verify dfyconfig.toml` checks everything.

## What is modelled

**One-time codes** (`OtpProtocol`, `OtpConservation`, `OtpLimiter`, `OtpLimiterTight`, `OtpTokens`,
`OtpLateCommit`, `OtpStaleCode`, `OtpExpiry`, `OtpService`, `OtpCalls`, with `OtpRuns` for building runs). Every database statement or transaction is one atomic step. Requests,
verifications, token redemptions and the hourly prune interleave freely between those steps, and
any call may die between two of them. A step that is not enabled leaves the state alone, so every
sequence of steps is a run. History (upserts, charged comparisons, wins, mints, redemptions, the
never-pruned log) is carried beside the tables. `OtpService` is the same code as one object whose calls run
undisturbed; each call is proved to be one particular run of the protocol.

**Signed tokens** (`Base64Url`, `Tokens`). Base64url as in section 5 of RFC 4648, built from base64,
character replacement and padding as the code builds it; the two-part verification token and the
three-part JWT (section 7.1 of RFC 7515, expiry as in section 4.1.4 of RFC 7519).

**Matching** (`ScoreArithmetic`, `Matching`, `MatchingLaws`, `Posting`, `Knockouts`, `Criteria`, `Location`,
`Feedback`, `Listing`). Knockouts, the weighted score with its two layers of rounding, the employer's form, the
nearest work location, deductions for declined offers, and the job list with its reasons and order.
Scales and trades are an arbitrary catalogue, distance an arbitrary function.

**Driving times** (`Routing`). The in-memory cache, the table request and what comes back.

**Erasure** (`ErasureProtocol`, `ErasureSafety`, `ErasureService`, `ErasureDue`, `ErasureBacklog`). Submissions and
erasures over a database and an object store without a common transaction, with failing deletions, lost
replies, crashes and legal holds; then one undisturbed erasure and the nightly batch as an object, and
what many nights reach.

**Referrals** (`Referrals`, `ReferralRaces`, `PartnerDashboard`, `StableSort`). The ledger of referral
rewards, its behaviour when changes overlap, the dashboard sums and the ranking.

`Common` holds options, JSON values, rounding and sums shared by the others.

## What the proofs found

- The caps on issued codes are exceeded under concurrency by exactly one less than the number of
  requests that overlap between count and write, however long any of them hangs; for every configuration
  and contact there is a run that attains it (`OtpLimiter.LimiterBound`,
  `OtpLimiterTight.LimiterBoundAttained`).
- Pruning old issuances can change the decision of a request exactly if the request hangs for more than
  a day between reading the clock and counting (`OtpLimiterTight.PruningInvisibleForStallIff`).
- Whatever is interleaved, a code matches only within its time to live: a comparison that succeeds charges
  the challenge issued last, whose request read the clock less than `ttlMs` before (`OtpExpiry.MatchInTime`).
- A verification compares with the hash it read, but charges and consumes by id, and a re-issue keeps the
  id. A superseded code can therefore win and use up the new challenge; the winning code is the current
  one exactly if none was issued in between, or one with the same hash (`OtpStaleCode.SupersededCodeWins`,
  `OtpStaleCode.WinIsForItsCodeIff`).
- A verification token is checked when a submission arrives and its nonce is stored when it commits.
  Single redemption of a nonce holds in every run if and only if no submission commits after its token
  has expired. If two submissions with one token arrive at its expiry and one commits a millisecond
  later, the prune has already let the nonce go (`OtpLateCommit.SingleRedemptionIff`).
- The displayed base score is within one point of the exact weighted mean, and raising a weight of a
  posting moves it the wrong way by at most one point (`MatchingLaws.BaseScoreBound`,
  `MatchingLaws.PostingWeightShift`); 42.06 can be shown as 43 (`MatchingLaws.BoundNearlyAttained`).
- A better licence scores lower in exactly one case (`MatchingLaws.LicenceMonotoneIff`), and a further
  refusal raises a job's score in exactly one situation (`Feedback.RefusalRaisesIff`).
- The form accepts trades and occupations that have nothing in common; a candidate working in her own
  trade can meet a stored profile in full exactly when they have (`Posting.MetFromOwnTradeIff`).
- The comment at `src/applications/applications.service.ts:361-362` says that a held record must not be
  destroyed. The hold is read once, when an erasure begins. A held record keeps its data, rows and files
  in every run exactly when it is erased already or all that is under way for it is spent: each erasure
  has failed on some document and has nothing left to delete or drop, and a submission cleaning up has no
  file left (`ErasureSafety.HeldIsUntouchedIff`). It merely stays unerased exactly when each erasure under
  way has failed on some document; its files may go all the same (`ErasureSafety.HoldWinsIff`).
- The nightly batch takes 500 due records in any order. Every record that does not fail itself is reached
  within a number of nights, whatever the order, exactly when that number times the places left by failing
  records covers them; with 500 failing records it never is (`ErasureBacklog.AllReachedIff`).
- An application comes due on the date stored with it and an incomplete erasure comes back every night, in
  every run (`ErasureDue.StoredComesDue`, `ErasureDue.IncompleteComesBack`).
- Referral changes read and then write. A placement event that read its row before the payout leaves
  a paid row marked as merely placed; a run keeps the ledger in order exactly when every write still
  fits the row it meets (`Referrals.LateWriteUndoesPayout`, `ReferralRaces.OverlapIff`).
- Emptying the routing cache drops values that pairs of the same call still had
  (`Routing.HasValueIff` says exactly which pairs have one afterwards).

## Conventions

Numbers that the service computes with floating point are reals, and `Math.round` is the floor of
x + 0.5. Times are whole milliseconds on one clock. Names follow the service, which mixes English and
German.

## Model

| member | source | states |
|---|---|---|
| OtpConservation.OtpConserved | src/otp/otp.service.ts:148-310 | In every interleaving, per contact: stored attempts stay within the maximum, charged comparisons within maxAttempts per upsert, tokens within wins, wins within upserts, although a re-issue keeps the row id and a verification may hold a stale snapshot |
| OtpConservation.Conservation | src/otp/otp.service.ts:148-310 | The invariant behind it, for every run: row ids are unique and already handed out, a held id can only mean the caller's own contact, and each count leaves room for what the current row can still charge and mint |
| OtpLimiter.LimiterBound | src/otp/otp.service.ts:117-188 | In every run with at most k requests for a contact between cap count and issuance write, every closed hour (day) window of the complete log holds at most maxPerHour - 1 + k (maxPerDay - 1 + k) issuances; requests may hang for any time |
| OtpLimiterTight.LimiterBoundAttained | src/otp/otp.service.ts:117-207 | For every configuration, contact, channel, code and k there is such a run in which the smaller cap is exceeded by k - 1 at a single moment: undelivered requests count without starting a cooldown, and k overlapping ones all pass the count |
| OtpLimiter.PruneKeepsCount | src/retention/retention.service.ts:77-79 | Pruning the issuance log forgets nothing a count asks for that reaches back at most two days before the prune |
| OtpLimiter.PruningInvisibleIff | src/retention/retention.service.ts:77-79 | A prune leaves the count of every possible log alone if and only if the count does not reach back beyond the prune's own bound |
| OtpLimiter.PruningInvisible | src/otp/otp.service.ts:121-131 | In every run, a request that counts within a day of reading the clock takes the decision it would take on the never-pruned log |
| OtpLimiterTight.PruningInvisibleForStallIff | src/otp/otp.service.ts:117-131 | In all runs every request that counts within `stall` of reading the clock decides as on the never-pruned log, if and only if `stall` is a day at most |
| OtpTokens.SingleRedemption | src/applications/applications.service.ts:203-242 | In runs whose redemptions commit by the token's expiry, no nonce is redeemed twice and none that was not minted, with the prune running at any time |
| OtpTokens.RedemptionChain | src/partner/partner.service.ts:133-181 | Per contact in those runs: redemptions at most tokens, tokens at most won consumes, wins at most issued challenges |
| OtpExpiry.RowIsLastIssue | src/otp/otp.service.ts:148-174 | In every run the challenge of a contact, if there is one, has the channel, hash and expiry of the last issue for that contact, ttlMs after its request read the clock |
| OtpExpiry.MatchInTime | src/otp/otp.service.ts:247-268 | In every run, whenever a comparison succeeds: the code was issued for that contact on that channel, only the contact's challenge is charged, it is unconsumed with a guess left, and its request read the clock less than ttlMs before |
| OtpExpiry.TokenNeedsIssue | src/otp/otp.service.ts:288-295 | In every run a token exists only for a contact and a channel on which a code was issued |
| OtpLateCommit.LateCommitRedeemsTwice | src/retention/retention.service.ts:73-75 | For every configuration, contact, channel, code and nonce, a complete run in which two submissions are checked at the expiry of the token, one redeems the nonce, it is pruned a millisecond later, and the other redeems it again |
| OtpLateCommit.SingleRedemptionIff | src/otp/verification-token.ts:81 | With redemptions allowed to commit up to `slack` ms after expiry, single redemption of any one nonce holds for all runs if and only if slack is at most zero |
| OtpStaleCode.WinIsForItsCodeIff | src/otp/otp.service.ts:233-283 | In every run, a winning consume takes the current challenge of the contact; the winning code has its hash if and only if no challenge was issued for the contact since the row was read, or the last one issued has the same hash |
| OtpStaleCode.SupersededCodeWins | src/otp/otp.service.ts:148-283 | For any two codes, once cooldown and caps allow a second issue, a run in which a verification that read before it consumes the second challenge with the first code |
| OtpService.OtpService.Request | src/otp/otp.service.ts:108-218 | One request: refused without any effect over a cap or in the cooldown; otherwise the row is replaced under its old id and the issuance written; a failed delivery keeps the issuance and removes the challenge |
| OtpService.OtpService.Upsert | src/otp/otp.service.ts:148-174 | The contact's row is replaced with a zero attempt count under its existing id, or created with a fresh one; ids stay unique |
| OtpService.OtpService.DeleteChallenge | src/otp/otp.service.ts:196-198 | Deleting by the remembered id removes exactly the contact's challenge |
| OtpService.OtpService.Verify | src/otp/otp.service.ts:221-310 | One verification: a wrong channel changes nothing, a dead row is removed, a wrong code costs one attempt, the right code removes the row and yields a token of 15 minutes |
| OtpService.OtpService.ChargeAttempt | src/otp/otp.service.ts:247-255 | One attempt is charged if and only if the row is unconsumed, not yet at its expiry and has a guess left; nothing else changes |
| OtpService.OtpService.ConsumeChallenge | src/otp/otp.service.ts:280-283 | The row is marked consumed and counted once, if it was not consumed before |
| OtpCalls.RequestRefusedIff | src/otp/otp.service.ts:117-144 | A request is refused if and only if the entries of the last hour or of the last 24 hours have reached their cap, or the challenge is younger than the cooldown; then nothing changes |
| OtpCalls.NextRequestRefusedIff | src/otp/otp.service.ts:117-207 | After a request that was let through the next one is held up by the cooldown only if the first was delivered, while the first counts against both caps either way |
| OtpCalls.VerifyAcceptsIff | src/otp/otp.service.ts:221-295 | A token comes out if and only if there is a challenge on this channel, unconsumed, before its expiry, with a guess left and the hash of the code; it holds for 15 minutes and the challenge is gone |
| OtpCalls.VerifyFailureLeaves | src/otp/otp.service.ts:237-278 | A failed verification changes nothing on another channel, removes a dead challenge, and otherwise costs one guess |
| OtpCalls.CodeWorksIff | src/otp/otp.service.ts:148-310 | After any number of wrong guesses in time, a requested code yields a token if and only if it was delivered, is entered on its channel less than ttlMs after the request, and fewer guesses were made than there are attempts |
| OtpCalls.PruneUnnoticed | src/retention/retention.service.ts:67-86 | No later call notices the hourly prune: verifications succeed, caps count and nonces of use are found as before; it leaves no challenge expired for an hour and no nonce past its expiry |
| OtpCalls.PruneIsARun | src/retention/retention.service.ts:67-86 | The prune of the service is the three deletions of the interleaved protocol |
| OtpService.RequestIsARun | src/otp/otp.service.ts:108-218 | Undisturbed, the interleaved protocol does exactly what one call of Request does, deliveries failing or not |
| OtpService.VerifyIsARun | src/otp/otp.service.ts:221-310 | Undisturbed, the interleaved protocol does exactly what one call of Verify does, token included |
| Base64Url.RoundTrip | src/auth/jwt.ts:30-44 | Decoding undoes encoding for every byte string |
| Base64Url.EncodeShape | src/auth/jwt.ts:30-36 | The text uses only the URL alphabet, never a dot or padding; it has (4n + 2) / 3 characters and is never one more than a multiple of four long |
| Base64Url.EncodeIsRadix64 | src/auth/jwt.ts:30-36 | The text is the bytes read as one number and written to base 64 in the digits of the standard, with zero bits filling up the last digit |
| Base64Url.RepadRestoresBase64 | src/auth/jwt.ts:38-44 | Restoring the padding and the two characters gives back the very base64 text the encoder started from |
| Tokens.ProofRoundTrip | src/otp/verification-token.ts:40-86 | A signed proof is returned whole up to and including its expiry if its channel is one of the two and its nonce has eight characters, and otherwise not at all |
| Tokens.MintedIsAccepted | src/otp/otp.service.ts:290-295 | What the service signs, with a nonce of sixteen bytes in hex, is accepted exactly until it expires |
| Tokens.ProofAcceptedIff | src/otp/verification-token.ts:54-86 | A text is accepted as a proof if and only if it is a dotless body and that body's signature, decoding to acceptable fields that have not expired |
| Tokens.JwtSplits | src/auth/jwt.ts:50-65 | A signed session splits at its dots into exactly header, body and signature |
| Tokens.JwtRoundTrip | src/auth/jwt.ts:50-89 | A signed session is returned whole strictly before its expiry second if its claims are acceptable, and otherwise not at all |
| Tokens.JwtAcceptedIff | src/auth/jwt.ts:62-89 | A text is accepted as a JWT if and only if it consists of a dotless header and body and their signature, with acceptable unexpired claims |
| Tokens.SplitJoins | src/auth/jwt.ts:63-65 | Splitting at dots gives dotless parts that join to the text again |
| Matching.Ausschlusskriterien | src/matching/scoring.ts:185-283 | Every knockout that applies is reported, no other, each once and in order; the rows of Knockouts say when one applies |
| Matching.PruefeEignung | src/matching/scoring.ts:190-245 | The first four knockouts (radius, trade, training, tasks), each reported if and only if it applies, in order |
| Knockouts.MinimumKnocksOutIff | src/matching/scoring.ts:216-280 | For every stored profile and the candidate it describes: another answer on training, travel or German knocks out, by exactly that reason, if and only if both ranks are known and the answer's is lower |
| Knockouts.LicenceKnocksOutIff | src/matching/scoring.ts:259-268 | Another licence knocks out if and only if it is of rank zero and one of a higher rank is asked for |
| Knockouts.TasksKnockOutIff | src/matching/scoring.ts:232-244 | Another list of tasks knocks out if and only if it covers fewer distinct tasks of the posting than the minimum |
| Knockouts.TradeKnocksOutIff | src/matching/scoring.ts:204-214 | Another trade knocks out if and only if trades are asked for and it is a known one that is not among them |
| Knockouts.DistanceKnocksOutIff | src/matching/scoring.ts:190-202 | A place out of reach knocks out, whatever else is met, and only that does |
| Knockouts.ReportedInOrder | src/matching/scoring.ts:185-283 | Of two reasons reported, radius comes before trade, training, tasks, travel, licence and German, in that order |
| Matching.Pruefe | src/matching/scoring.ts:417-454 | A criterion's row: skipped exactly if it cannot be judged or has no weight, otherwise clamped fulfilment and rounded penalty |
| Matching.Bewerte | src/matching/scoring.ts:407-538 | Six rows in order, totals over the rows that count, passed exactly without knockouts, and the score the two-level rounding gives, zero when not passed |
| ScoreArithmetic.RoundingBound | src/matching/scoring.ts:173-523 | With whole weights of at least one, the displayed score and the exact weighted mean differ by at most one point |
| ScoreArithmetic.ExactBetween | src/matching/scoring.ts:517-523 | The exact mean lies between the worst and the best fulfilment |
| ScoreArithmetic.ShownMonotone | src/matching/scoring.ts:517-523 | Pointwise higher fulfilment with the same weights never lowers the displayed score, both roundings included |
| ScoreArithmetic.PerfectShows100 | src/matching/scoring.ts:517-523 | Full fulfilment throughout shows 100 |
| MatchingLaws.BaseScoreBound | src/matching/scoring.ts:416-523 | For every posting and candidate the base score is within one point of the exact mean and of the span of fulfilments, and 100 if nothing counts |
| MatchingLaws.BaseMonotone | src/matching/scoring.ts:416-523 | The same criteria fulfilled at least as well never give a lower base score |
| MatchingLaws.PostingWeightShift | src/matching/scoring.ts:413-523 | Raising the weight of a counted criterion of a posting moves the exact score strictly towards its fulfilment and the displayed one the other way by at most one point |
| MatchingLaws.BoundNearlyAttained | src/matching/scoring.ts:416-523 | A posting with nine tasks and two offers and a candidate, without a knockout, whose exact score 42.06 is displayed as 43 |
| MatchingLaws.MoreTasks | src/matching/scoring.ts:232-303 | Covering further tasks, from a nonempty list, neither lowers the score nor adds a knockout |
| MatchingLaws.MoreExperience | src/matching/scoring.ts:313-336 | More experience, up to the upper end of the span, neither lowers the score nor adds a knockout |
| MatchingLaws.EarlierStart | src/matching/scoring.ts:388-400 | Starting earlier neither lowers the score nor adds a knockout |
| MatchingLaws.LicenceMonotoneIff | src/matching/scoring.ts:371-385 | A higher licence scores lower in exactly one case: class C sought, class B instead of driving school |
| MatchingLaws.CleanWeightsAreNormalised | src/matching/scoring.ts:413-414 | Cleaned weights over the standard ones are always whole numbers from 0 to 5, so the bounds hold for every stored posting |
| Criteria.CountedIffAsked | src/matching/scoring.ts:456-513 | A candidate who has answered everything is judged on exactly the criteria the employer has filled in and gives weight to; a licence of rank zero is none |
| Criteria.OpenAnswerSkips | src/matching/scoring.ts:456-513 | A question left open, or answered with something unknown, takes exactly its own criterion out of the score |
| Criteria.OneMissLeaves | src/matching/scoring.ts:110-117 | With all six criteria stated and answered under the standard weights, missing one altogether leaves 71 (tasks), 76 (experience), 82 (occupation), 88 (wishes, licence) or 94 (start) |
| Criteria.LicenceLeaves | src/matching/scoring.ts:371-385 | On the shipped scale, with all else met, still learning leaves 94 and class B for class C leaves 92 |
| MatchingLaws.ShareEnds | src/matching/scoring.ts:288-350 | The number covered reaches the whole list exactly if every entry is covered, and is zero exactly if none is |
| Posting.PruefeGewichte | src/matching/matching.service.ts:142-154 | From arbitrary JSON exactly the numeric entries survive, each a whole number from 0 to 5; nothing at all if there is none |
| Posting.AnforderungVon | src/matching/matching.service.ts:142-154 | Whatever JSON is stored, each weight is the whole number from 0 to 5 nearest to the one stored under its name, or the standard one of 5, 4, 3, 2, 2 and 1; the rest of the profile is as stored |
| Posting.AcceptedIff | src/employer/employer.service.ts:308-373 | The form is accepted if and only if every value given in any field is one the catalogue knows |
| Posting.StoredProfile | src/employer/employer.service.ts:308-373 | An accepted profile asks for exactly the values of every list and choice of the form, without repetition, and for the number of tasks nearest to the form's that it lists; the two ends of the experience change places if and only if both are given and reversed |
| Posting.SpanMeansForm | src/employer/employer.service.ts:347-361 | The experience meeting the stored span in full is what lies between the two ranks of the form, from the lower one up if only the minimum is given, and down from the upper one if only the maximum is |
| Posting.DedupKeepsFirst | src/employer/employer.service.ts:314 | Repetitions are dropped where they stand: every value keeps its first place |
| Posting.SpanMeetableIff | src/employer/employer.service.ts:344-348 | Some amount of experience meets a span in full if and only if it is not the wrong way round, which is what the swap is for |
| Posting.EveryPostingCanBeMet | src/matching/scoring.ts:185-538 | For every accepted form and any weights there is a fully answered candidate without a knockout, scoring exactly 100, judged on exactly the stated criteria that carry weight |
| Posting.MetFromOwnTradeIff | src/employer/employer.service.ts:334-356 | Such a candidate working in her own trade exists if and only if the trades and occupations asked for have a pair in common |
| Location.NearestLocation | src/matching/matching.service.ts:410-424 | The loop computes Nearest, absent coordinates and empty lists included |
| Location.NearestIsFirstNearest | src/matching/matching.service.ts:410-424 | What it returns is the first location at least distance, for any distance function |
| Location.FirstNearestIsUnique | src/matching/matching.service.ts:418-422 | There is only one first location at least distance, so the answer is determined |
| Location.DistanceKnockoutIff | src/matching/matching.service.ts:392-408 | A distance knockout occurs exactly if coordinates and locations are known and no location's radius covers the job, whichever is nearest |
| Location.LageDescribesNearest | src/matching/matching.service.ts:392-408 | Distance, radius and name reported are those of the first of the nearest locations |
| Location.MorePlaces | src/matching/scoring.ts:196-204 | A further location anywhere in a nonempty list never introduces a distance knockout and never moves the job away |
| Feedback.DeclineContext | src/jobs/jobs.service.ts:296-347 | The loop over declined offers computes Fold |
| Feedback.FoldMeans | src/jobs/jobs.service.ts:309-340 | The fold counts refusals per company and reason, and keeps the shortest known driving time refused for distance and the highest salary refused, but at least zero |
| Feedback.FoldIgnoresOrder | src/jobs/jobs.service.ts:309-340 | The fold does not depend on the order of the offers |
| Feedback.MinutenMeans | src/jobs/jobs.service.ts:183-184 | The estimated time is within 34 seconds of five minutes plus 1.2 minutes per km to the nearest location, and depends on the distance shown alone |
| Feedback.DeclineAdjustments | src/matching/matching.service.ts:312-359 | Exactly the rules with points to deduct are listed, with their points |
| Feedback.CompanyRule | src/matching/matching.service.ts:322-329 | One, two and more refused offers of a company cost its jobs 8, 16 and 20 points |
| Feedback.TooFarRule | src/matching/matching.service.ts:331-343 | In terms of the offers: ten points exactly from the second distance refusal, for jobs of at least 15 minutes that take no less than some refused one, or 45 minutes if no time is known; otherwise none |
| Feedback.PayRule | src/matching/matching.service.ts:345-356 | In terms of the offers: ten points exactly from the second pay refusal, for jobs paying no more than some refused one; otherwise none |
| Feedback.Score | src/matching/matching.service.ts:362-373 | The final score of a passing job is the base score less the deductions, between base - 40 (not below zero) and base; otherwise nothing changes |
| Feedback.DeductionDropsIff | src/matching/matching.service.ts:331-343 | One more refusal lowers the deductions exactly by lifting the too-far limit: two or more distance refusals without a known time, and the new one names a time above the job's, which is at least 45 minutes |
| Feedback.RefusalRaisesIff | src/matching/matching.service.ts:312-373 | One more refusal raises a job's final score exactly in that situation, if the base score exceeds what remains to deduct |
| Feedback.RefusalCanRaiseIff | src/jobs/jobs.service.ts:309-347 | Some job gains from a refusal if and only if it is the first distance refusal with a known time, that time is over 45 minutes, and there were two before |
| Listing.BuildJob | src/jobs/jobs.service.ts:175-206 | Location, score and feedback together: excluded exactly by a knockout, reasons complete and distinct, otherwise the base score less the deductions |
| Listing.ListJobs | src/jobs/jobs.service.ts:356-464 | One entry per posting; shown, counted and sorted as Lists describes |
| Listing.ShownIff | src/jobs/jobs.service.ts:415-439 | Shown is exactly what passes, contains the text searched for, has a known driving time within the maximum, pays the minimum and has both flags, as far as asked for, and each entry as often as it occurs |
| Listing.SelectKeepsOrder | src/jobs/jobs.service.ts:397-439 | Filtering keeps the order of the postings, which is how ties stay sorted by age |
| Listing.RelaxingKeepsJobs | src/jobs/jobs.service.ts:415-439 | Relaxing any limit never takes a job off the list and never changes what is excluded |
| Listing.EntryScore | src/jobs/jobs.service.ts:175-206 | The score of an entry that passes is the base score less 8, 16 or 20 for refused offers of the company, 10 if too far and 10 if paid too little, in terms of the refused offers |
| Listing.BelegtIff | src/jobs/jobs.service.ts:450-451 | An entry counts as backed if and only if some criterion counts for this worker and this posting |
| Listing.HistogramMeans | src/jobs/jobs.service.ts:398-413 | Each count is the number of excluded postings failing on that reason, and the counts add up to at least one per posting |
| Listing.ListingPartitions | src/jobs/jobs.service.ts:397-439 | Every posting is in exactly one of shown, excluded and filtered out |
| Listing.ReasonsAddUp | src/jobs/jobs.service.ts:398-413 | Exactly the occurring reasons with their true counts, most frequent first; no count exceeds the number excluded, which the counts together reach |
| Listing.RelevanceOrder | src/jobs/jobs.service.ts:441-461 | By default judged postings come first, then higher scores, then shorter ways, ties in their previous order |
| Listing.ChosenOrder | src/jobs/jobs.service.ts:453-456 | The chosen orders put shorter ways, higher salaries and newer postings first, unknown ones last |
| StableSort.SortedMeans | src/jobs/jobs.service.ts:453-461 | For any total preorder the sorted list is an ordered, stable permutation |
| StableSort.SortedIsTheOnlyOne | src/jobs/jobs.service.ts:453-461 | Two ordered lists of equal length with the same ties in the same order are equal: the result does not depend on the algorithm |
| Routing.BackedIsAccurate | src/matching/routing.service.ts:27-28 | A value stored under a pair's four-decimal key is the rounded answer for query points within 0.0006 degrees of the pair, in each coordinate |
| Routing.SameKeyIff | src/matching/routing.service.ts:27-28 | Two points share a key if and only if both coordinates agree to four decimals |
| Routing.QueriedIsCoarse | src/matching/routing.service.ts:99-103 | What leaves the service has three decimals, and is within 0.0005 degrees of the point |
| Routing.EntryIsBacked | src/matching/routing.service.ts:111-138 | The indices in the request make entry (i, j) of the table an answer about the i-th origin and j-th destination at three decimals |
| Routing.ReplyKeepsFaith | src/matching/routing.service.ts:127-149 | Whatever the reply, every cached value stays backed by some answer of the service |
| Routing.UniqKeepsKeys | src/matching/routing.service.ts:83-92 | Deduplication keeps one point for each four-decimal key and loses no key |
| Routing.UniqTakesLast | src/matching/routing.service.ts:86-88 | Of several points with one key the last is asked about |
| Routing.UniqKeepsPlaces | src/matching/routing.service.ts:83-92 | Every key keeps the place where it first occurred, so the destinations dropped from a large table are those named last |
| Routing.MissingMembers | src/matching/routing.service.ts:74 | Exactly the pairs without a cached value are asked about |
| Routing.MissingKeepsOrder | src/matching/routing.service.ts:74 | They are asked about in the order of the call |
| Routing.MinutesAreRounded | src/matching/routing.service.ts:138 | Never less than one minute, and from half a minute on within 30 seconds of the answer, halves going up |
| Routing.HasValueIff | src/matching/routing.service.ts:133-141 | After a table a key has a value exactly if the table delivered one, or it was cached and the cache had not outgrown its limit |
| Routing.FullTableAnswersIff | src/matching/routing.service.ts:69-97 | If the service fills its table and nothing is cleared, a pair of the call has a value if and only if it had one or its destination was kept; with at most 90 points that is every pair |
| Routing.TruncatedMeans | src/matching/routing.service.ts:95-97 | The destinations kept are the first ones: all if the table stays within 90 points, otherwise as many as that allows, one at least |
| Routing.DeliveredIsCached | src/matching/routing.service.ts:134-141 | What the table says about two points is what is cached for them, whatever was cached before |
| Routing.ReplyBound | src/matching/routing.service.ts:95-97 | One reply leaves the cache no larger than before, or than 10 000 plus 2 025 (plus the number of origins if larger) |
| Routing.CacheSizeInEveryRun | src/matching/routing.service.ts:95-141 | In every run whose requests have at most n origins, overlapping or not, the cache stays within 10 000 + max(2 025, n) |
| Routing.RoutingService.Plan | src/matching/routing.service.ts:86-97 | The distinct origins, and as many distinct destinations as the table allows, at least one |
| Routing.RoutingService.Receive | src/matching/routing.service.ts:118-149 | The exact cache, counters and log after a reply that comes at any time; a failure changes only the counters |
| Routing.RoutingService.Read | src/matching/routing.service.ts:79 | One value per pair in order, each accurate |
| Routing.RoutingService.DrivingMinutes | src/matching/routing.service.ts:69-80 | One call: disabled means no values and no effect, nothing missing means no request, otherwise exactly one; values positional and accurate |
| ErasureSafety.ErasureIsSafe | src/applications/applications.service.ts:354-431 | In every run with failing deletions, lost replies and crashes: of an erased application no row, object or identifier is left, every object of a stored application has its row, and one that lost a row is flagged |
| ErasureSafety.ActKeepsOrder | src/applications/applications.service.ts:369-421 | Each statement of an erasure, whatever else is going on, keeps that: dropping the rows of confirmed deletions leaves every surviving object its row, finalising finds nothing left |
| ErasureSafety.CommitKeeps | src/applications/applications.service.ts:203-242 | Storing an application in one transaction, noticed or not, keeps all of that |
| ErasureSafety.HeldIsUntouchedIff | src/applications/applications.service.ts:354-431 | A held application keeps its record, rows and files in every run that leaves the hold alone, if and only if it is erased already or every erasure of it under way has failed with nothing left to delete or drop and a submission cleaning up has no file left |
| ErasureSafety.HoldWinsIff | src/applications/applications.service.ts:355-367 | A held application is not finalised in any run if and only if each erasure already under way has failed on some document |
| ErasureService.EraseIsARun | src/applications/applications.service.ts:354-431 | One undisturbed erasure is a run of the interleaved protocol |
| ErasureService.ErasureService.Erase | src/applications/applications.service.ts:354-431 | Unknown or erased, held, incomplete (flagged and not erased) or erased, with the exact database and store for every pattern of failures |
| ErasureService.ErasureService.DeleteDocuments | src/applications/applications.service.ts:378-394 | Exactly the objects that went are gone, and exactly the rows of confirmed deletions |
| ErasureService.ErasureService.EraseExpiredApplications | src/retention/retention.service.ts:27-63 | A batch of 500 of what is due is tried once each; the count is the number finalised |
| ErasureDue.NightErasesAll | src/retention/retention.service.ts:27-63 | If at most 500 unheld records are flagged or out of retention and every deletion is confirmed, each is finalised in one night, without a row, a file or an identifier |
| ErasureDue.NightLeavesTheRest | src/retention/retention.service.ts:29-36 | A record that is held, erased, or unflagged with its retention still running or unlimited keeps its data, rows and files |
| ErasureDue.IncompleteComesBack | src/applications/applications.service.ts:369-401 | After an attempt that ended incomplete, whatever else runs, any later night may select the record while it is neither erased nor held |
| ErasureDue.StoredComesDue | src/retention/retention.service.ts:27-37 | Whatever runs after an application was stored, a night may select it if and only if it is neither erased nor held and its stored date has come or an erasure of it has begun |
| ErasureService.AttemptProgress | src/applications/applications.service.ts:378-401 | An attempt reduces the record's documents by exactly its confirmed deletions and touches no other record |
| ErasureService.RunClears | src/retention/retention.service.ts:27-63 | A nightly run makes exactly those selected records no longer due whose deletions are all confirmed |
| ErasureService.RunRows | src/retention/retention.service.ts:27-63 | It takes exactly the confirmed documents off the selected records and none off any other |
| ErasureBacklog.AllReachedIff | src/retention/retention.service.ts:27-63 | With nothing new, whatever order the database lists, only records that fail themselves are left after some nights, if and only if the nights times 500 less the number of failing records (zero at least) covers all others |
| ErasureBacklog.StuckStays | src/retention/retention.service.ts:27-63 | One night leaves the set of failing records as it is and takes exactly the selected ones off the others |
| ErasureBacklog.BacklogGoneIff | src/retention/retention.service.ts:27-63 | With nothing failing and nothing new, a backlog is gone if and only if 500 times the number of nights reaches its size |
| Referrals.PromptWriteKeeps | src/partner/partner.service.ts:650-684 | A change written at once keeps the referral in order, every payout standing, and its owner |
| Referrals.LateWriteIff | src/partner/partner.service.ts:787-817 | A change planned from an older reading keeps the referral in order and its payout standing if and only if it still fits the row it meets |
| Referrals.LateWriteUndoesPayout | src/partner/partner.service.ts:650-684 | A placement event that read before the payout leaves a payout date on a row that says placed |
| Referrals.LedgerInEveryRun | src/partner/partner.service.ts:556-817 | In every run of changes without overlap: paid if and only if dated, placed ones dated, earlier ones worth nothing, payouts final and their nonzero amount frozen, no change of owner |
| Referrals.AutomaticLeavesPlaced | src/partner/partner.service.ts:650-684 | Once placed, no registration or automatic event changes state, reward or dates |
| Referrals.AutomaticMoves | src/partner/partner.service.ts:650-684 | An application moves a registration only, a placement whatever is not placed yet, with reward and date; nothing else changes |
| Referrals.AdministrationMoves | src/partner/partner.service.ts:787-817 | A placement is worth the reward of the day and keeps its first date, taking it back leaves a mere registration or application, and a payout keeps a reward there is |
| Referrals.RegistrationToPayout | src/partner/partner.service.ts:556-817 | The whole way of a referral: registered and worth nothing, renamed but not taken over by another link, then working, placed and paid |
| Referrals.PaidAsPlaced | src/partner/partner.service.ts:787-817 | The payout is the reward at the time of the placement, whatever the reward is later and whatever automatic events lie between |
| Referrals.Ledger.Fortschreiben | src/partner/partner.service.ts:650-684 | The automatic move goes forward only and leaves anything paid alone |
| Referrals.Ledger.SetReferralStatus | src/partner/partner.service.ts:787-830 | Unknown, conflict with a payout exactly when a paid one should become unpaid, or changed with the stored reward reported |
| ReferralRaces.OverlapIff | src/partner/partner.service.ts:654-674 | For every run of overlapping reads and writes, order and payouts are kept throughout if and only if every write fits the row it meets |
| ReferralRaces.UndisturbedIsAfter | src/partner/partner.service.ts:650-684 | Read and written with nothing in between, a change does what the event does |
| PartnerDashboard.Dashboard | src/partner/partner.service.ts:438-500 | Sums, counts, a conversion between 0 and 100, and six months each with the rewards of what was placed in it |
| PartnerDashboard.SumIsOverRewards | src/partner/partner.service.ts:449 | A sum is over the rewards of the referrals chosen, each once |
| PartnerDashboard.CountIsCard | src/partner/partner.service.ts:445-451 | A count is the number of referrals chosen |
| PartnerDashboard.EarnedIsTheWholeSum | src/partner/partner.service.ts:445-450 | In a ledger in order the earnings equal the sum over all of a partner's referrals |
| PartnerDashboard.MonthIsIndex | src/partner/partner.service.ts:461-468 | Going back i months from the first of this month meets a date exactly if it lies i months back, across year ends |
| PartnerDashboard.MonthsAddUp | src/partner/partner.service.ts:458-472 | No referral falls into two months, and the months together hold exactly what was placed in that time |
| PartnerDashboard.SixMonthsAddUp | src/partner/partner.service.ts:458-472 | The six displayed figures add up to exactly the rewards placed in the last six months |
| PartnerDashboard.Ranking | src/partner/partner.service.ts:503-538 | The own rank is one more than the number of partners strictly ahead, or one after everyone with a placement; the top six are the first of the order |
| PartnerDashboard.RankIsCountAhead | src/partner/partner.service.ts:510-537 | In the order, exactly those before a place are ahead of it, ties broken by id |

## Left out

- Signing and hashing: the keyed hash is an arbitrary function, so nothing is said about forging; codes, nonces and ids are fresh values; the constant-time comparison is equality; the contact hash of the issuance log is the contact itself.
- JSON: a codec given by two arbitrary functions; a round trip assumes only that parsing undoes printing for the one value concerned. Text decoding is not modelled.
- Node's base64 decoder: characters outside the alphabet are skipped, other lenient readings of malformed text are not modelled.
- Floating point and trigonometry: scores, minutes and coordinates are reals, and the distance is any function of two points. Numbers printed with `toFixed` beyond 10^21 are not modelled.
- Clocks: the service and its database share one clock that never goes back.
- OtpService.OtpService.Request: takes one reading of the clock for the whole call, while the database stamps the issuance itself; the interleaved protocol has both times.
- OtpService.OtpService.Verify: takes one reading of the clock for charge and token; the interleaved protocol has both times. A nonce is drawn by the caller.
- The unique-constraint error of a concurrent challenge upsert: the upsert is one atomic statement here.
- ErasureService.ErasureService.EraseExpiredApplications: nothing else runs meanwhile, and the order in which the database lists what is due is any order; the interleaved protocol covers what happens in between.
- ErasureProtocol: file contents, the audit trail, signed download links and the used nonce of a submission (which OtpTokens covers). Legal holds are set by operators directly in the database, as no code sets them.
- Routing.RoutingService.DrivingMinutes: no other call overlaps; Plan, Receive and Read may be interleaved freely, since each relies on the object invariant alone. The key text is the four numbers it prints. The fetch counter moves when the reply arrives.
- Referrals: the reward amount comes in as a parameter, without its one-minute cache and the settings table; a referral is identified by the referred user; the lookup of partners and the check against self-referral are not modelled.
- PartnerDashboard.Ranking: the partners' names, and `localeCompare` beyond being a strict total order on ids.
- Listing.ListJobs: the database's own filters, upper and lower case, texts and reasons shown to people; the sort is the library's, given by its one possible result.
- Posting: the other fields of the form and saving it; labels, notes and error texts.
- Profiles in the old format, slugs, file names, drafts, password resets, session revocation, contact requests, click counts, configuration, controllers and logging: they would add only easy members.
