# Rolling API: verified model of the business rules

Rolling runs offline blind-date events. Users host rooms, applicants are approved and confirmed, a room that
reaches half of each capacity becomes viable, a planner confirms it and checks people in, a round-robin rotation
seats everyone with everyone, and participants then choose each other. This project models the service layer as
Dafny classes whose methods update tables in place, proves each method equal to a function on the tables, and
proves what those functions guarantee over whole runs from empty tables.

| file | what it covers |
|---|---|
| `Types.dfy` | identifiers, clock values, enumerations, counting lemmas |
| `ChoiceService.dfy`, `ChoiceView.dfy`, `ChoiceTheorems.dfy`, `ChoiceBatches.dfy` | choices, the match table derived from them, after-date proposals |
| `Rotation.dfy`, `RotationTheorems.dfy`, `RotationRuns.dfy` | the schedule, the session, who meets whom over a run |
| `CreditService.dfy`, `Discounts.dfy` | issuing and expiring credits, discount arithmetic, the floating-point quotient |
| `Lifecycle.dfy`, `Store.dfy` | every request on accounts, rooms, applications, check-ins, credits and sessions, as functions and as the class that runs them |
| `LifecycleInvariants.dfy`, `LifecycleSteps.dfy`, `LifecycleRuns.dfy` | the cross-table invariant, its preservation by every request, and the theorems over runs |
| `ViabilityRuns.dfy`, `CapacityRuns.dfy`, `RosterRuns.dfy` | when rooms stay viable, within their capacities, with a locked roster and with deadlines before their starts |
| `Outcomes.dfy`, `CreditOutcomes.dfy`, `SessionOutcomes.dfy`, `AccountRuns.dfy` | a second account of every request, by table: when it is accepted, what it is told otherwise, what it does to each row, and what the accounts owe to the requests of the run |
| `CreditRuns.dfy` | which friends are rewarded, when a credit can be used and what it is worth |
| `JointRuns.dfy` | choices and lifecycle requests interleaved, with the room read from the lifecycle tables |
| `Counterexamples.dfy` | concrete runs from empty tables that show where an expected property fails |
| `RateLimiter.dfy`, `RateLimiterTheorems.dfy`, `RateLimiterClients.dfy` | the sliding-window limiter, per key and per client |
| `RefreshTokens.dfy`, `RefreshRuns.dfy` | refresh-token rotation, and when a refresh succeeds, told by the requests alone |

How to read it:

- A request is one atomic step. It commits wholly or leaves the tables as they were, because endpoints commit and
  services only flush (`app/api/v1/matches.py:46-49`). Requests run one after the other.
- The session of a request does not autoflush (`app/core/database.py:27-33`). `ChoiceService.Session` keeps loaded
  rows, whose changes later lookups see, apart from pending rows, which they do not. A flush fails on a unique
  constraint, and the request then has no effect.
- The clock is a parameter, one reading per request. Identifiers are integers, of which only equality and order
  are used. Rows are never deleted by the services, so a table is a list and a row's id is its position, or a map
  where a unique key exists. Random values (check-in codes, token identifiers) are parameters.
- Methods in `Store`, `ChoiceService`, `RateLimiter` and `RefreshTokens` are the code; their contracts equate the
  new tables with the function of the same request. `Store.Services.Handle` serves any request and keeps the
  cross-table invariant, and `Store.ServeAll` shows that an object that has served a sequence of requests holds
  exactly the tables of that run, so every theorem over runs is one about the object. Such a function is named in its
  method's contract and has no row of its own below; handlers that check one status and set it, and lemmas that only
  serve another one, have none either.

The functions behind the methods are not the last word on what a request should do. For every request of the lifecycle
`Outcomes.Acceptable`, `Reason`, `RoomAfter`, `AppAfter`, `CheckInAfter` and the rows it adds say it a second time, in terms
of rows and literal numbers and without those functions; `CreditOutcomes`, `SessionOutcomes` and `AccountRuns` do the same
for credits, sessions and accounts, `JointRuns.SubmissionOutcome` and `ProposalOutcome` for choices, and `RefreshRuns` for
tokens. The theorems there show that the two accounts agree in every reachable state, so the two cannot
drift apart unnoticed.

Seven behaviours of the code differ from what one would expect. For each there is the exact condition over all runs, in
terms of a request and what was stored before it, and a concrete run from empty tables in which the code accepts a
request that violates it:

- A batch that names a target twice can leave a live match beside a withdrawn interest. The condition is
  `ChoiceTheorems.Slips`: the batch will commit, and for some target the other side is interested, no match row exists
  yet, and the batch says INTERESTED and later something else. `ViewExactThroughoutIff` and
  `BufferedEqualsSequentialIff` show this is the only way, `WithdrawnInOneBatch` and `SlipIsReachable` that it happens.
- `round_duration_minutes` is not checked. `PlayedRoundsRunForwardsIff`: the rounds played after a start all run
  forwards exactly when the duration it asked for is not negative; `RoundRunsBackwards`.
- A profile can change gender after a confirmation. `ViableThroughoutIff`: viable rooms keep half of each capacity
  confirmed exactly while no confirmed participant leaves a gender that has none to spare; `ViabilityIsLost`.
- Confirming a room is documented as locking the roster (`app/services/planner_service.py:73`), but a payment is
  accepted in any room status. `RosterLocksIff`, `ConfirmationLocksIff`: nobody ever leaves a roster, and it stays as
  it was exactly while no payment for the room is accepted; `RosterGrows`.
- The capacities checked at the confirmation can be exceeded later, by a payment or by a profile that changes gender.
  `ConfirmationFitsCapacity` states what holds at the confirmation; `FitThroughoutIff`: confirmed rooms stay within
  both capacities exactly while no payment and no profile adds to a gender that is full; `PaymentOverfills`,
  `ProfileOverfills`.
- Creating a room checks that its deadline is not after its start (`app/schemas/room.py:93-94`), updating it does not.
  `DeadlinesThroughoutIff`: no deadline is after its start exactly while no accepted update puts one there;
  `DeadlineAfterStart`.
- The limiter is documented as one per client (`README.md:344`) but keys by client and full path. `ClientLimitIff`: in
  every window a client is accepted under a rule at most `max_req` times exactly while no request is accepted on its own
  path when the client's paths together have used the limit up; `LimitIsExceeded`. `ClientBound` and `PathsMultiply`:
  one share per distinct path is the most a client can get, and it can get it.

Where documentation and code disagree the model follows the code: the friend's referral credit is issued on the first
confirmed application, not at sign-up (`app/services/credit_service.py:10`), and only for the first five friends of a
referrer (`RewardedIffAmongFirstFive`); a NO_SHOW can still be checked in
(`README.md:272` shows OPEN only).

## Model

| member | source | states |
|---|---|---|
| ChoiceService.ChoiceStore.SubmitChoices | app/services/choice_service.py:119-240 | a request on a session without autoflush: the refusals in order, an invalid target or a violated unique constraint undoes everything, otherwise the flushed tables and both counts |
| ChoiceService.ChoiceStore.UpdateMatch | app/services/choice_service.py:182-236 | creates, revives or downgrades the match of one pair, through the lookup that does not see pending rows |
| ChoiceService.ChoiceStore.ProposeAfterDate | app/services/choice_service.py:320-350 | a member of a live match adds a proposal and the match becomes AFTER_PROPOSED; otherwise the refusal and no change |
| ChoiceService.ChoiceStore.ListMyMatches | app/services/choice_service.py:243-317 | exactly the listed rows, each once: own, live or confirmed, and past the embargo unless host; each with its counterpart and whether a date was proposed |
| ChoiceView.FlushableIff | app/models/participant_choice.py:13-18 | a batch violates a unique constraint iff it repeats a target with no choice row, or says INTERESTED twice where a new match is due |
| ChoiceView.AcceptedIff | app/services/choice_service.py:119-181 | a request is accepted iff it is not refused, every target is valid and no row would be inserted twice, all decided by the tables before it |
| ChoiceTheorems.SubmitKeepsViewExactIff | app/services/choice_service.py:153-236 | from an exact view, any request leaves live matches equal to mutual interest unless its batch will commit and has a stale target |
| ChoiceTheorems.ProposeKeepsViewExact | app/services/choice_service.py:331-348 | proposing keeps the view exact, and an AFTER_PROPOSED match has a proposal by one of the two |
| ChoiceTheorems.DistinctBatchIsClean | app/services/choice_service.py:153-181 | a batch with distinct targets never violates a constraint and is never stale |
| ChoiceTheorems.ViewExactThroughoutIff | app/services/choice_service.py:119-240 | over every run: the view is exact at every moment iff no batch that will commit has a stale target |
| ChoiceTheorems.ViewExactOnDistinctBatches | app/services/choice_service.py:45-46 | over every run with distinct targets per batch: one canonical row per unordered pair, live iff both are interested |
| ChoiceTheorems.WithdrawnInOneBatch | app/services/choice_service.py:201-236 | the concrete batch that leaves a live match beside a withdrawn interest |
| ChoiceTheorems.BufferedRefinesSequential | app/services/choice_service.py:153-240 | a committing batch with no stale target has the choices, matches and count of the loop in which every write is visible at once |
| ChoiceTheorems.BufferedEqualsSequentialIff | app/services/choice_service.py:153-240 | for committing batches with any repeats, that equality holds iff no target is stale |
| ChoiceBatches.OrderOfBatchIsIrrelevant | app/services/choice_service.py:153-240 | every permutation of a batch with distinct targets leaves the same tables and returns the same pair |
| ChoiceBatches.NewMutualCountsNewLive | app/services/choice_service.py:201-220 | new_mutual is the number of matches that were not live and now are |
| ChoiceBatches.MatchesAreConserved | app/services/choice_service.py:149-240 | live matches after = live before + new_mutual - withdrawn, and the withdrawn ones are those whose last answer is no longer INTERESTED |
| ChoiceBatches.ResubmissionIsSilent | app/services/choice_service.py:153-240 | after any run without a slip, submitting answers that are stored already changes nothing and reports no new match, whatever others did in between |
| ChoiceBatches.RepeatIsSilent | app/services/choice_service.py:153-240 | on any tables, the same batch sent again with nothing in between changes nothing |
| ChoiceBatches.VisibilityNeverMoves | app/services/choice_service.py:205-219 | in every run a match's visible_at, once set, never changes |
| ChoiceBatches.ListShowsMutualInterest | app/services/choice_service.py:251-298 | over every run without a slip, the list shows someone iff both are interested and the embargo is over or the reader is the host, through one row |
| ChoiceBatches.EmbargoHolds | app/services/choice_service.py:202-298 | from its creation on, whatever is submitted or proposed later, a match is shown exactly while both are interested: to the host at once, to the others from 24 hours after its creation on |
| ChoiceBatches.SummaryTellsProposals | app/services/choice_service.py:284-313 | a listed match is marked exactly when a proposal was accepted on it in the run, and names the other of the two |
| ChoiceBatches.SlipIsReachable | app/services/choice_service.py:201-236 | a concrete run from empty tables ends with a view that is not exact |
| JointRuns.BothPartsAreRuns | app/services/choice_service.py:119-150 | interleaved with lifecycle requests, the choice tables are those of a choice run whose room views are read from the lifecycle tables |
| JointRuns.MatchedMeansParticipated | app/services/choice_service.py:119-150 | over every interleaving, both users of a match have a check-in through their own CONFIRMED application to its room, which is IN_PROGRESS or COMPLETED, for ever after |
| JointRuns.MatchesAreExact | app/services/choice_service.py:153-236 | over every interleaving in which no batch slips, the view is exact |
| JointRuns.SubmissionOutcome | app/services/choice_service.py:119-240 | over every interleaving, a submission with distinct targets is accepted with all its items iff the room is IN_PROGRESS or COMPLETED, the chooser has a profile and is checked in, and every target is someone else checked in with another gender; the other answers in order; exactly these answers are stored and the new live matches counted |
| JointRuns.ProposalOutcome | app/services/choice_service.py:320-350 | over every interleaving without a slip, a proposal is accepted iff the match exists, the user is one of the two and both are still interested; it adds one proposal and marks the match |
| Rotation.RoundRobinPairs | app/services/rotation_service.py:46-60 | the nested loops give, for every round and table, the pair of the schedule |
| Rotation.WrapIsModulo | app/services/rotation_service.py:58 | the schedule's position is (i + r) % n |
| Rotation.BuildRounds | app/services/rotation_service.py:125-151 | round and seat rows: numbers 1..n, the first ACTIVE, scheduled back to back |
| Rotation.FindRound | app/services/rotation_service.py:189-195 | the first round with a number, if any |
| Rotation.EndRounds | app/services/rotation_service.py:228-231 | every round is completed and keeps an end it already had |
| RotationTheorems.MeetingIsUnique | app/services/rotation_service.py:55-58 | i -> (i + r) mod n is a bijection: the round in which two positions meet is unique |
| RotationTheorems.EveryPairMeetsOnce | app/services/rotation_service.py:49-51 | each male and female share exactly one round |
| RotationTheorems.EveryRoundIsPerfectMatching | app/services/rotation_service.py:55-59 | in each round everyone has exactly one seat and the tables are 1..n |
| RotationTheorems.StartedIsSound | app/services/rotation_service.py:111-155 | a started session is RUNNING in round 1 with sound rows for exactly the two groups |
| RotationTheorems.AdvanceIsSound | app/services/rotation_service.py:167-205 | advancing succeeds iff RUNNING before the last round, moves by one, keeps groups and schedule; below current COMPLETED, current alone ACTIVE, above PENDING |
| RotationTheorems.FinishIsSound | app/services/rotation_service.py:217-236 | ending succeeds iff still running and completes every round, keeping the schedule |
| RotationTheorems.AdvanceIsTimely | app/services/rotation_service.py:189-201 | under a nondecreasing clock every round left behind has start <= end <= start of the next |
| RotationTheorems.MaleSees | app/services/rotation_service.py:324-353 | the seat lookup shows a male the scheduled opponent and table of the current round |
| RotationTheorems.FemaleSees | app/services/rotation_service.py:324-353 | the same for a female |
| RotationTheorems.ViewsAreSymmetric | app/services/rotation_service.py:335-374 | whoever a participant is shown is shown that participant, same table and round |
| RotationTheorems.OpponentsAreTheOtherGroup | app/services/rotation_service.py:46-60 | over rounds 1..n a participant's opponents are the other group, each once |
| RotationRuns.CurrentCountsAdvances | app/services/rotation_service.py:181-203 | in every run current_round = 1 + successful advances, of which there are at most n - 1 |
| RotationRuns.AdvanceSucceedsIff | app/services/rotation_service.py:158-205 | in a room in progress the planner's advance succeeds iff fewer than n - 1 have |
| RotationRuns.RoundsAreTimely | app/services/rotation_service.py:126-139 | in every run with a nondecreasing clock played rounds follow one another |
| RotationRuns.PlayedRoundsRunForwardsIff | app/services/rotation_service.py:111-139 | whatever happens after an accepted start, the played rounds all run forwards iff the duration it asked for is not negative |
| Counterexamples.RoundRunsBackwards | app/schemas/rotation.py:44 | a concrete run starts a session whose first round ends a minute before it starts |
| RotationRuns.ReportsAreScheduled | app/services/rotation_service.py:304-374 | in every run what a participant was shown, round by round, is the schedule up to the current round |
| RotationRuns.EveryoneMeetsEveryoneOnce | app/services/rotation_service.py:85-155 | end to end: at the last round a participant has been shown everyone who was checked in with the other gender at the start, each exactly once, whatever else happened |
| RotationRuns.ReachableViewsAreSymmetric | app/services/rotation_service.py:335-374 | in every reachable state the views of a room agree |
| SessionOutcomes.StartPlansEverything | app/services/rotation_service.py:85-155 | an accepted start seats exactly the men and women checked in, sorted, and plans every round, seat and time of the round robin from the time of the request |
| SessionOutcomes.NextOpensOne | app/services/rotation_service.py:181-205 | an accepted next round closes the current round now and opens the next for the session's duration, and changes nothing else |
| SessionOutcomes.EndClosesAll | app/services/rotation_service.py:226-236 | an accepted end completes every round at its planned end and the session now |
| SessionOutcomes.SessionsStay | app/services/rotation_service.py:158-236 | no other request touches a session |
| SessionOutcomes.OnlookersSeeTheRound | app/services/rotation_service.py:335-374 | someone without a seat is shown the state of the round, without table or opponent |
| CreditService.BestDiscount | app/services/credit_service.py:178-185 | the first credit with the largest positive discount, or none with 0 |
| Discounts.BestAmountIsMaximum | app/services/credit_service.py:178-185 | the amount is the maximum estimate, or 0 |
| Discounts.BestAmountIgnoresOrder | app/services/credit_service.py:178-185 | the amount does not depend on list order |
| Discounts.EstimateBounds | app/services/credit_service.py:166-175 | for well-formed credits 0 <= discount <= price, and discount and net price are nondecreasing in price |
| Discounts.BestAmountBounds | app/services/credit_service.py:178-185 | the same for the best discount |
| Discounts.FloatDivisionIsExact | app/services/credit_service.py:171 | truncating the correctly rounded binary64 quotient by 100 gives the exact truncated quotient for every product below 100 * 2^46 in size |
| Discounts.FloatPercentageIsExact | app/services/credit_service.py:171 | for prices below 2^31 and percentages up to 100 the float formula is price * percent div 100 |
| Discounts.EstimateIsLargest | app/services/credit_service.py:166-175 | for well-formed credits the discount is the largest that the price, the amount, the percentage and the cap allow |
| Discounts.FloatEstimateIsExact | app/services/credit_service.py:170-174 | the discount of a percent credit is the truncated float, or the cap if that is less |
| Store.Services.RegisterUser | app/services/auth_service.py:65-95 | a new account with its referrer, or the refusal |
| Store.Services.CreateRoom | app/services/host_service.py:70-99 | a DRAFT room owned by the caller, or the refusal |
| Store.Services.UpdateRoom | app/services/host_service.py:106-124 | editable states only; unset, null and set fields; failures leave the room unchanged |
| Store.Services.ApplyToRoom | app/services/application_service.py:28-82 | a new application, or the reactivation of a cancelled one, or the refusal in order |
| Store.Services.MarkApplicationPaid | app/services/host_service.py:246-269 | confirmation, then promotion of the room, then the referral reward |
| Store.Services.CountConfirmed | app/services/host_service.py:302-338 | the confirmed count of a room and gender |
| Store.Services.MaybePromoteToViable | app/services/host_service.py:341-363 | promotion when both thresholds are met, with the host bonus, and whether this call promoted |
| Store.Services.MaybeEmitReferralBonus | app/services/host_service.py:272-283 | the referral pair on the first confirmation of a referred user |
| Store.Services.IssueViableHostBonus | app/services/credit_service.py:40-67 | one bonus per host and room |
| Store.Services.IssueReferralPair | app/services/credit_service.py:70-127 | both credits, once per pair, at most five per referrer |
| Store.Services.ListMyCredits | app/services/credit_service.py:133-148 | overdue active credits of the user become expired; the user's credits are returned newest first |
| Store.Services.CreditSummary | app/services/credit_service.py:151-197 | how many credits the user can use, and one of them with the largest discount, if any is positive |
| Store.Services.ConfirmAssignedRoom | app/services/planner_service.py:72-101 | ASSIGNED to CONFIRMED when somebody is confirmed and no gender exceeds its capacity |
| Store.Services.OpenRoomCheckIn | app/services/checkin_service.py:32-81 | one open check-in per confirmed application, existing rows kept, and the rows of the confirmed applicants returned |
| Store.Services.CheckedInParticipants | app/services/rotation_service.py:85-97 | the checked-in users of a room by gender |
| Store.Services.StartRotation | app/services/rotation_service.py:63-155 | refusals in order, then the session with its schedule and the room IN_PROGRESS |
| Store.Services.StartNextRound | app/services/rotation_service.py:158-205 | the session advances by one round, or the refusal |
| Store.Services.EndRotation | app/services/rotation_service.py:208-236 | session and room are COMPLETED, or the refusal |
| Store.Services.GetMyCurrentRound | app/services/rotation_service.py:304-374 | session status, round, total, duration, round status, own table and opponent of the current round |
| Store.ServeAll | app/api/v1/host.py:51-59 | one request after the other, each committed or without effect: the object holds the tables of the run, the invariant holds, and every answer is the one of the run |
| LifecycleSteps.StepKeeps | app/services/host_service.py:106-363 | every request keeps the cross-table invariant and changes the tables only in the allowed ways |
| LifecycleSteps.GroupIs | app/services/rotation_service.py:96-97 | a group is everyone checked in with a gender, sorted, once each |
| Outcomes.AcceptedIff | app/services/host_service.py:70-269 | in every reachable state every request is accepted iff the second account says so, and is told what it says otherwise |
| Outcomes.TablesFollow | app/services/application_service.py:28-109 | every request changes each row of rooms, applications and check-ins, and adds rows, exactly as the second account says; a refused one changes nothing |
| AccountRuns.AccountsAreRemembered | app/services/auth_service.py:65-95 | accounts, referrers, blocks, profiles and approvals are what the requests of the run made them |
| AccountRuns.RegistrationAcceptedIff | app/services/auth_service.py:65-82 | a registration is accepted iff the account is new and its referrer, if any, is registered |
| AccountRuns.ReferrerIsForGood | app/services/auth_service.py:84-95 | after an accepted registration the account has the referrer of the request, whatever happens |
| AccountRuns.CreationAcceptedIff | app/services/host_service.py:70-99 | a room is created iff the account is registered and not blocked and the times are in order |
| LifecycleRuns.ReachableIsValid | app/services/host_service.py:106-363 | the invariant holds in every reachable state |
| LifecycleRuns.RunsOnlyMoveForward | app/models/_enums.py:22-31 | between any two moments of a run the tables only move forward; among others, EXPIRED credits stay so |
| LifecycleRuns.RoomsNeverGoBack | app/models/_enums.py:22-31 | the status rank never decreases, the planner is set iff ASSIGNED or beyond and frozen from CONFIRMED, RECRUITING and CANCELLED are unreachable |
| LifecycleRuns.SessionFollowsRoom | app/services/rotation_service.py:70-80 | a session is RUNNING iff the room is IN_PROGRESS and COMPLETED iff the room is |
| LifecycleRuns.ApplicationsSettle | app/services/application_service.py:96-107 | CONFIRMED and REJECTED are absorbing, nobody is confirmed without approval, only cancelled applications carry cancelled_at |
| LifecycleRuns.BonusesCountViableRooms | app/services/host_service.py:349-363 | a user's VIABLE bonuses equal the rooms they host at VIABLE or beyond, one per room, and viable_at is set exactly there |
| CreditOutcomes.PaymentPromotesIff | app/services/host_service.py:246-269 | a payment is accepted iff by the host for an approved application; a PUBLISHED room is then VIABLE, at the time of the request and with one coupon, iff half of each capacity is confirmed; no other room changes |
| CreditOutcomes.CreditsFollow | app/services/credit_service.py:40-148 | the credits after every request, in numbers: one coupon of 30 percent up to 10000 per promotion, 3000 for each side on a first confirmation among the referrer's first five friends, valid for 90 days, and overdue ones marked when listed |
| LifecycleRuns.ReferralCreditsCountConfirmedFriends | app/services/credit_service.py:79-127 | a referrer's credits equal min(5, referred users with a CONFIRMED application), paired one to one with the friends' credits, and the flag is set exactly on confirmed friends |
| AccountRuns.RewardsFollowRegistrations | app/services/credit_service.py:70-127 | the referrer holds one credit for each of the first five users who registered with their code and were confirmed, each with its counterpart |
| CreditRuns.FirstFiveAreRewarded | app/services/credit_service.py:79-127 | while a referrer has at most five confirmed friends, both sides hold their credit for each of them |
| CreditRuns.RewardedIffAmongFirstFive | app/services/credit_service.py:91-101 | at every moment after a friend's first confirmation, both sides are rewarded iff fewer than five friends of the referrer were confirmed before, and neither is otherwise |
| CreditRuns.ExpiredMeansOverdue | app/services/credit_service.py:141-147 | in every run an EXPIRED credit was overdue at some request of the run |
| CreditRuns.ActiveMeansNotOverdue | app/services/credit_service.py:151-163 | from the last request on, the credits a user can use are exactly those not overdue, whether or not their list was looked at |
| CreditRuns.SummaryInNumbers | app/services/credit_service.py:166-197 | the best discount is the largest worth of the user's credits that are not overdue: min(10000, 30 percent) for a coupon, min(3000, price) for a referral credit |
| CreditRuns.ListIsReversed | app/services/credit_service.py:133-139 | the list shows the user's credits, each once, in reverse order of issue |
| LifecycleRuns.ReachableDiscounts | app/services/credit_service.py:188-197 | for credits of any reachable state the best discount is between 0 and the price, and a dearer room is never cheaper |
| LifecycleRuns.SeatedMeansConfirmed | app/services/checkin_service.py:42-81 | everyone seated has one check-in whose application is their own, only and CONFIRMED application to that room |
| LifecycleRuns.OpeningCoversEveryone | app/services/checkin_service.py:42-81 | an accepted opening returns one row of the room for every confirmed application |
| LifecycleRuns.ReopeningIsIdempotent | app/services/checkin_service.py:57-81 | opening check-in keeps existing rows with status and code, and opening again changes nothing |
| ViabilityRuns.ThresholdIsHalf | app/services/host_service.py:289-294 | max(1, ceil(c * 0.5)) = (c + 1) div 2 |
| ViabilityRuns.ProfileShiftsCount | app/services/profile_service.py:26-28 | a saved profile moves a confirmed count by one exactly where a confirmed participant joins or leaves the gender |
| ViabilityRuns.ViableThroughoutIff | app/services/host_service.py:341-357 | over every run rooms at VIABLE or beyond keep half of each capacity confirmed iff no confirmed participant leaves a gender that has none to spare |
| ViabilityRuns.ViableWhenGendersAreFixed | app/services/host_service.py:341-357 | with fixed genders they keep it forever |
| Counterexamples.ViabilityIsLost | app/services/profile_service.py:26-28 | a concrete run in which a viable room loses its only confirmed man to a profile update |
| CapacityRuns.ConfirmationFitsCapacity | app/services/planner_service.py:79-99 | while viability holds the confirmation is decided by the capacities alone, and a confirmed room holds between half and all of each |
| RosterRuns.RosterLocksIff | app/services/host_service.py:246-269 | between any two moments of a run nobody leaves the roster of a room, and it is unchanged iff no payment for the room was accepted in between |
| RosterRuns.ConfirmationLocksIff | app/services/planner_service.py:72-101 | after an accepted confirmation the roster is locked iff no payment for the room is accepted |
| Counterexamples.RosterGrows | app/services/host_service.py:253-262 | a concrete run in which the roster of a confirmed room grows within its capacities |
| CapacityRuns.PaymentFitsIff | app/services/host_service.py:246-269 | a payment keeps confirmed rooms within their capacities unless it is accepted for a confirmed room in which the applicant's gender is full |
| CapacityRuns.FitThroughoutIff | app/services/host_service.py:253-262 | over every run rooms at CONFIRMED or beyond stay within both capacities iff no payment and no saved profile adds to a gender that is full |
| Counterexamples.PaymentOverfills | app/services/host_service.py:253-262 | a concrete run with two men confirmed for one seat, the second paid after the room was confirmed |
| Counterexamples.ProfileOverfills | app/services/profile_service.py:26-28 | a concrete run with two women confirmed for one seat after a profile update |
| CapacityRuns.DeadlinesThroughoutIff | app/services/host_service.py:106-124 | over every run no deadline is after its room's start iff no accepted update puts it there |
| Counterexamples.DeadlineAfterStart | app/services/host_service.py:106-124 | a concrete run in which a host moves the deadline behind the start |
| RateLimiter.Middleware.FindRule | app/core/middleware.py:65-69 | the first rule whose prefix matches |
| RateLimiter.Middleware.HandleRequest | app/core/middleware.py:80-108 | pruning, admission or refusal with Retry-After, and the read of an empty deque |
| RateLimiterTheorems.BucketIsSuffixOfLog | app/core/middleware.py:89-93 | the deque is the suffix of the full accepted log from the last cutoff |
| RateLimiterTheorems.DecisionFollowsLog | app/core/middleware.py:91-107 | a request passes iff fewer than max_req were accepted at times >= now - window |
| RateLimiterTheorems.WindowBound | app/core/middleware.py:91-107 | every closed interval of length window holds at most max_req accepted requests |
| RateLimiterTheorems.LimitedMeansFull | app/core/middleware.py:94-106 | a refused request finds exactly max_req in the window and the clamp at 0 is redundant |
| RateLimiterTheorems.CrashesIff | app/core/middleware.py:94-95 | the head of an empty deque is read exactly under a rule that allows nothing |
| RateLimiterTheorems.RetryAfterSuffices | app/core/middleware.py:95-107 | after the Retry-After wait, with nothing accepted in between, the next request passes |
| RateLimiterTheorems.RejectedLeavesNoTrace | app/core/middleware.py:94-107 | a refused request changes no later log, so it never lengthens a lockout |
| RateLimiterTheorems.ColonFreeKeysHaveOneRule | app/core/middleware.py:71-78 | without colons in the paths a key names client and path, so its requests share a rule |
| RateLimiterTheorems.FirstPrefixRules | app/core/middleware.py:65-69 | the rule of a path is that of the first prefix it starts with |
| RateLimiterTheorems.NoPrefixPasses | app/core/middleware.py:83-85 | a path under no rule is never limited and leaves every deque alone |
| RateLimiterClients.ClientLimitIff | app/core/middleware.py:71-107 | over every run a client is accepted under a rule at most max_req times in every closed interval of length window iff no request is accepted on its own path when the client's paths together have used max_req up |
| RateLimiterClients.LimitIsExceeded | app/main.py:41-45 | under the configured login rule of 10 in 60 seconds, 20 logins of one client are accepted at one moment on two paths |
| RateLimiterClients.ClientBound | app/core/middleware.py:71-107 | in every closed interval of length window a client is accepted under a rule at most max_req times per distinct path |
| RateLimiterClients.PathsMultiply | app/core/middleware.py:86-88 | and that many can be accepted at one moment, for any number of distinct paths under the rule |
| RefreshTokens.AuthService.IssueTokenPair | app/services/auth_service.py:42-62 | a new token row, unless its hash is already stored |
| RefreshTokens.AuthService.LogIn | app/services/auth_service.py:98-114 | an active user with the right password gets a token |
| RefreshTokens.AuthService.RefreshPair | app/services/auth_service.py:117-159 | the refusals in order, then the used token is revoked and one issued |
| RefreshTokens.AuthService.LogOut | app/services/auth_service.py:162-173 | every unrevoked token of the user is revoked |
| RefreshTokens.RedeemedAtMostOnce | app/services/auth_service.py:139-159 | in every run each token is redeemed at most once |
| RefreshTokens.LogoutEndsTokens | app/services/auth_service.py:146-173 | a token from before a logout is refused ever after |
| RefreshTokens.LiveTokensCountLogins | app/services/auth_service.py:112-173 | a user's unrevoked tokens are as many as their logins since their last logout |
| RefreshRuns.RefreshSucceedsIff | app/services/auth_service.py:117-159 | over every run a refresh succeeds iff the token was handed out less than 14 days ago by an accepted login or refresh, not used since, its user neither logged out since nor is inactive now, and the new token was never handed out |
| RefreshRuns.RefreshHandsOver | app/services/auth_service.py:153-159 | the new token is then live for the same user, and the used one never again |
| RefreshRuns.LoginSucceedsIff | app/services/auth_service.py:98-114 | a login succeeds iff the user is active, the password matched and the token is new |

## Left out

- FastAPI endpoints, schemas, SQLAlchemy mappings, migrations, configuration, logging and the seed script: plumbing, except the unique constraints, the capacity bounds and the visibility of pending rows.
- Authentication of the caller, roles and the admin check: a request names its caller, and any caller may be named. `CreateRoom` alone checks the account, as its service does.
- JWT encoding, bcrypt, SHA-256 and random generators: tokens and codes are values, a repeated one fails on its unique constraint.
- Store.Services.RegisterUser: names the account and the referring user directly; e-mail addresses, the role a client may ask for, referral codes and the retry loop for a fresh one are not modelled.
- Store.Services.SetUserActive: has two account statuses, because the services only ask whether an account is ACTIVE.
- Descriptive room and profile fields (titles, venue, prices, texts): no rule reads them.
- Concurrent transactions and database isolation: runs are serial.
- Dashboards, listings, room search, audit rows, feedback and reports: queries or single checks.
- Payments, PAYMENT_PENDING, PAID, USED, VOIDED, AFTER_CONFIRMED and CLOSED: never written by the services; the two application statuses are proved unreachable.
- ChoiceService.ChoiceStore.SubmitChoices: reads the clock once per request, so all matches created by one batch share their visible_at.
- Store.Services.OpenRoomCheckIn: applications are visited in table order; the source's query has no fixed order, which only affects the ids of new rows and the order of the returned ones.
- Store.Services.GetMyCurrentRound: shows the opponent's id without the profile texts of the brief.
- Store.Services.SetPlannerStatus: also stands for the creation of a planner row, which no service does.
- Store.Services.UpsertProfile: keeps the gender and whether the profile is complete, which is all that other services read.
- ChoiceService.ChoiceStore.ListMyMatches: the counterpart's profile texts and the row's time stamps are not shown.
- Store.Services.ListMyCredits: newest first means the reverse order of issue; the source sorts by creation time, which is the same while the clock does not go back, up to ties.
- RefreshTokens.AuthService.LogIn: does not record last_login_at and does not return the access token, which no other service reads.
- RateLimiter.Middleware.HandleRequest: clock readings are real numbers, the client address is given instead of parsed from headers, and the rounded number in the response body is not modelled.
- Discounts.FloatDivisionIsExact: `CreditService.EstimateDiscount` uses the exact quotient, which this lemma shows equal to the float one in the stated range only.
