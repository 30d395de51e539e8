# Verified model of the Spades tournament platform

A Dafny model of the money and game logic of the backend: single-elimination
tournaments and their prizes, dispute cases, challenge matchmaking, the Spades
engine and its event log, ratings, payouts, login sessions, and the smaller
components around them. Money is in integer cents; a database transaction is one
atomic step that commits or leaves everything as it was; where a lock, a
compare-and-set or a second transaction is the point, the steps between are
modelled one by one and may interleave, be lost or be repeated.

Services that change rows are classes whose methods run the source's loops; each
method is proved against a function of the state before it, and the theorems are
about those functions over every run. What an operation does, and exactly when, is
said once more without these functions in the files named after rules and laws:
with the amounts, statuses, times and conditions written out, and with the reason
why a row of a run stands as it does. Every lemma carries `{:induction false}`, so
no proof leans on automatic induction.

| file | what it models |
|---|---|
| `Common.dfy`, `Sorting.dfy` | options and results, commit or roll back; sorting as a specification |
| `Ledger.dfy` | the balance ledger every money step writes to |
| `Bracket.dfy`, `Draw.dfy` | bracket state machine; seeded draw and the power-of-two test |
| `Settlement.dfy`, `PrizesWon.dfy`, `Overdrawn.dfy` | prize awards; the prizes that registrations show; what each wallet gets and when it goes negative |
| `PrizeMoney.dfy` | who gets which prize after the final, a correction and a disqualification |
| `Desk.dfy`, `Standings.dfy`, `Knockout.dfy`, `TournamentProgression.dfy` | the tournament as a whole; its placements over every run; who can still win; the service |
| `Disputes.dfy`, `CaseRules.dfy` | dispute cases and the two transactions of their resolution; what each does |
| `Matchmaking.dfy`, `Consent.dfy` | challenges, the waiting pool and the matches made from it; who may act on a challenge |
| `Leaderboard.dfy`, `RatingLaws.dfy` | Elo fold, ranking, the viewer's card; what each shows and why |
| `SpadesEngine.dfy`, `GameEvents.dfy`, `MatchCommands.dfy`, `PlayRules.dfy` | the engine; the event log; the match row under commands; the rules of play and scoring |
| `MatchLog.dfy`, `LogFidelity.dfy`, `LostHands.dfy` | the log analyser; the analyser against the engine; a run it misreads |
| `Payouts.dfy`, `Withdrawals.dfy`, `WebhookInbox.dfy` | transfer protocol; the wallets behind it; the inbox of Stripe events |
| `TransferRules.dfy`, `WithdrawalRules.dfy`, `InboxRules.dfy` | what each step of these three does |
| `RefreshTokens.dfy`, `SessionRules.dfy` | session and token protocol (admin and player); what each step demands |
| `Sanitizer.dfy`, `MetadataRules.dfy` | audit metadata and diffs; what is stored of a value |
| `Shipments.dfy`, `ShipmentRules.dfy` | stock, shipments and their money; what each operation does |
| `Sku.dfy`, `Refunds.dfy`, `Backfill.dfy` | SKUs, cancelled entry fees, ledger backfill |

Parameters stand for what the model cannot see: the clock, the random draws of
the shuffle, the hash of the draw, which players are eligible or online, and
Stripe's answers.

## Where the code differs from what it says

The model follows the code; the lemmas named here state the difference.

- A comment says a credit needs no balance floor, but a credit is refused while
  the wallet is negative (`Ledger.AcceptedExactlyWhenCovered`). A correction that
  takes back a spent prize makes a wallet negative
  (`Overdrawn.CorrectionOverdrawsExactlyWhen`), and every later credit to it is then
  refused (`Overdrawn.SpentPrizeBlocksCredits`). So prizes, releases, corrections,
  merchandise refunds, cancelled entry fees and withdrawals of an overdrawn player are
  refused, and the whole transaction with them (`Settlement.PayFinalistsSound`,
  `Refunds.CancelsExactlyWhenNobodyOverdrawn`, `Shipments.CancelKeeps`,
  `Withdrawals.RefusedExactlyWhenOverdrawn`).
- Clearing a dispute of a tournament that has not been settled sets `settledAt`,
  and nothing else does (`Settlement.StampedBeforeSettlementExactlyWhen`).
  Disqualifying the one player whose prizes are held leaves it unset with nothing
  held (`Settlement.StampIsMissedExactlyWhen`, `Settlement.MissedStampHappens`).
- A correction moves the CHAMPION status but leaves the old champion's placement
  at 1, so after the first correction two teams are placed first exactly when it names
  two teams other than the winner of the final
  (`Standings.OneFirstPlaceExactlyWhenWinnerIsNamed`, `Knockout.TwoFirstPlacesHappen`).
- A team disqualified while its player is in no running match stays in the bracket and
  can become CHAMPION unless it has lost already
  (`Knockout.DisqualifiedCanStillWinExactlyWhen`, `Knockout.DisqualifiedChampionHappens`).
- A case that names only the final holds a prize at settlement, but neither verdict on
  it ever frees the prize (`Disputes.LetsGoExactlyWhen`, `Disputes.ClearedCaseStillHolds`).
- One busy or blocked pair at the head of the waiting pool refuses acceptances
  that a later pair could serve (`Matchmaking.RefusedByTheFirstInLine`,
  `Matchmaking.RefusedDespiteAFreePair`, `Matchmaking.FreePairPassedOver`).
- PAID is called terminal, and a route from PROCESSING to CANCELLED is ruled out;
  a webhook moves PAID to FAILED, and PROCESSING reaches CANCELLED through
  APPROVED, even with the transfer sent (`Payouts.LeavesTableExactlyWhen`,
  `Payouts.CancelCanHideATransfer`). A FAILED payout with a recorded transfer can
  be approved again but never processed (`Payouts.RecordedIsNeverProcessedAgain`).
- After a failed call to Stripe a comment says that nothing moved there. When only the
  response was lost the transfer exists, and declining the released withdrawal gives the
  money back as well (`Withdrawals.CanDoubleExactlyWhen`, `Withdrawals.GivenBackAndSent`).
- A Stripe event counts as handled once, but when marking it PROCESSED fails after
  its effects, the next delivery applies it again
  (`WebhookInbox.AppliedAgainExactlyWhenReopened`, `WebhookInbox.AppliedTwice`); for
  the transfer events that is harmless (`Payouts.TransferEventsTakeEffectOnce`).
- An event whose handler stops before applying it stays RECEIVED and is never
  applied; one whose handler stops afterwards loses nothing
  (`WebhookInbox.LostExactlyWhenStoppedBeforeApplying`, `WebhookInbox.TheTwoStops`).
- Ending a player session does not revoke its tokens, so one refresh already in
  flight can still succeed (`RefreshTokens.PlayerSessionIsOverExactlyWhenNothingInFlight`).
- The analyser does not see bids and cards played by a timeout, and never checks
  the scores after the last hand for a comeback (`MatchLog.AnalyzeMatch`,
  `MatchLog.TimeoutsAreInvisible`). A hand whose last card a timeout plays never
  closes in the log and runs on into the next (`LogFidelity.SilentEndMergesHands`,
  `LogFidelity.HandsAreAllThereExactlyWhen`), and a nil can be lost that way
  (`LostHands.TimedOutLastCardLosesANil`). In a hand whose cards were all played by the
  players, after a hand ended by a card, only the exact bid of a timed-out bidder who
  won one trick is misread (`LogFidelity.HandIsReadRight`); the report is true when no
  timeout bid or played (`LogFidelity.ReportIsTrue`).
- The backfill script sums all rows, the service only those that affect the
  balance (`Backfill.ChecksAgreeExactly`).

## Model

| member | source | states |
|---|---|---|
| Bracket.EveryRun | src/modules/tournaments/tournament-progression.service.ts:142-288 | Over every run of match ends, results applied in any order, repeats and disqualifications from a fresh bracket: match (r+1, s) exists exactly when (r, 2s) and (r, 2s+1) have been applied and seats their winners in slot order; some unapplied match exists exactly while IN_PROGRESS; the tournament completes exactly when teams − 1 results have been applied |
| Bracket.BeginHasShape | src/modules/tournaments/tournament-progression.service.ts:142-163 | The bracket written by `start` has the tree shape every later state keeps |
| Bracket.ApplyKeepsShape | src/modules/tournaments/tournament-progression.service.ts:169-288 | Applying a result never raises a conflict in a reachable bracket and keeps the tree shape |
| Bracket.ApplyCountsOnce | src/modules/tournaments/tournament-progression.service.ts:178-188 | A result counts exactly when the guard lets it through, and applying it again changes nothing |
| Bracket.CompleteExactlyAtTeamsMinusOne | src/modules/tournaments/tournament-progression.service.ts:230-251 | COMPLETED if and only if the number of applied results is teams − 1, which it never exceeds |
| Bracket.NeverStuck | src/modules/tournaments/tournament-progression.service.ts:253-287 | IN_PROGRESS if and only if some match of the bracket is still unapplied |
| Bracket.OutcomeIsRight | src/modules/tournaments/tournament-progression.service.ts:190-206 | Winner and loser read back from the four seats are the two teams the match was made for, with their players in seat order |
| Bracket.SeatedCrosswise | src/modules/tournaments/tournament-progression.service.ts:807-866 | In every match seat i is on side i % 2, the two players of a team sit opposite each other, and the first round pairs the teams as drawn |
| Bracket.OneOpenMatchPerTeam | src/modules/tournaments/tournament-progression.service.ts:559-566 | A team plays in at most one unapplied match |
| Bracket.NotYetOut | src/modules/tournaments/tournament-progression.service.ts:559-566 | A team in an unapplied match has lost no round |
| Bracket.OneChampion | src/modules/tournaments/tournament-progression.service.ts:230-235 | In an uncorrected completed bracket the only team placed first is the winner of the final |
| Bracket.FinalStandings | src/modules/tournaments/tournament-progression.service.ts:208-235 | In an uncorrected completed bracket of 2^R teams exactly one team is placed first and exactly 2^k teams are placed 2^k + 1, for every k < R |
| Draw.PowersOfTwoExactly | src/modules/tournaments/tournament-progression.service.ts:48-50 | The bit trick accepts exactly the powers of two |
| Draw.StableDraw | src/modules/tournaments/tournament-progression.service.ts:52-62 | The draw is a permutation of the registrants |
| Draw.DrawDependsOnlyOnSet | src/modules/tournaments/tournament-progression.service.ts:52-62 | The draw depends only on the seed and on who registered, not on the order they are listed in |
| Draw.DrawIsByHash | src/modules/tournaments/tournament-progression.service.ts:52-62 | Of two drawn players the earlier has the smaller hash of seed and id, or the same hash and the smaller id |
| Draw.TeamsAreNeighbours | src/modules/tournaments/tournament-progression.service.ts:119-140 | Team t is exactly the players drawn at places 2t and 2t + 1, in that order |
| Draw.EveryPlayerOnOneTeam | src/modules/tournaments/tournament-progression.service.ts:119-140 | Every drawn registrant is on exactly one two-player team, and teams have no one else |
| Settlement.EveryRun | src/modules/tournaments/tournament-progression.service.ts:290-605 | Over every run of settlement, holds, releases, disqualifications, corrections and unrelated movements: a player's prize and reversal rows net to the credited awards, every non-REVERSED award carries the current version, live awards fit the pool, `settledAt` means nothing is HELD, and the wallet is the player's other money plus the credited awards |
| Settlement.SharesSplitThePool | src/modules/tournaments/tournament-progression.service.ts:690-723 | The four shares sum to the pool, team mates differ by at most a cent, and the champions' part is 70% rounded down to the cent |
| Settlement.PayFinalistsSound | src/modules/tournaments/tournament-progression.service.ts:683-805 | A settlement goes through exactly when every finalist it would credit is not overdrawn, pays the whole pool (or the champions' part when the runner-up is skipped), and sets `settledAt` exactly when nothing is held |
| Settlement.CorrectSound | src/modules/tournaments/tournament-progression.service.ts:359-466 | A correction goes through exactly when no undisputed new finalist is overdrawn apart from prizes, takes every earlier prize back and pays the whole pool again at the next version |
| Overdrawn.SettlementPaysShares | src/modules/tournaments/tournament-progression.service.ts:683-805 | A settlement moves every wallet by exactly the share of the player's place, and by nothing for the disputed, the skipped and everyone else |
| Overdrawn.CorrectionPaysShares | src/modules/tournaments/tournament-progression.service.ts:359-466 | After a correction every wallet holds the player's other money plus the share of the new place, whatever was paid before |
| Overdrawn.CorrectionOverdrawsExactlyWhen | src/modules/tournaments/tournament-progression.service.ts:359-466 | A correction leaves a wallet negative if and only if its other money is negative and it gets no new credit |
| Overdrawn.SpentPrizeBlocksCredits | src/modules/transactions/repositories/transactions.repository.ts:101-128 | A run from a fresh tournament: the champion spends everything, the correction takes the prize back, and every credit to the negative wallet is refused |
| Settlement.ReleaseSound | src/modules/tournaments/tournament-progression.service.ts:474-531 | A release credits every held award of the player, or is refused exactly when the wallet is overdrawn; with another case open it changes nothing |
| Settlement.DisqualifySound | src/modules/tournaments/tournament-progression.service.ts:555-564 | A disqualification reverses the player's held awards and moves no money |
| Settlement.StampsEarlyExactlyWhenClearing | src/modules/tournaments/tournament-progression.service.ts:519-529 | A step sets `settledAt` on an unsettled tournament if and only if it clears a case with no other case open |
| Settlement.StampedBeforeSettlementExactlyWhen | src/modules/tournaments/tournament-progression.service.ts:519-529 | Over every run with nothing settled yet, `settledAt` is set if and only if some such clearing took place |
| Settlement.StampIsMissedExactlyWhen | src/modules/tournaments/tournament-progression.service.ts:555-564 | A step leaves a settled tournament with nothing held and no `settledAt` if and only if it disqualifies the player for whom every held award was held |
| Settlement.MissedStampHappens | src/modules/tournaments/tournament-progression.service.ts:555-564 | A settlement with one hold followed by that disqualification, from a fresh tournament, ends so |
| Desk.EveryRunIsSane | src/modules/tournaments/tournament-progression.service.ts:72-605 | Bracket, registrations, awards and ledger stay right together over every run of the tournament, with no award before completion |
| Desk.StartIsSane | src/modules/tournaments/tournament-progression.service.ts:98-163 | A started tournament has every registrant on one team, 2^rounds teams, and satisfies everything the later steps keep |
| Desk.ApplyMatchSane | src/modules/tournaments/tournament-progression.service.ts:169-288 | Applying a result is refused only in the final, exactly when a finalist to be credited is overdrawn, and keeps bracket, roster and ledger right; what the final pays to whom is PrizeMoney.FinalPaysItsWinners |
| Desk.AcceptedMeansTwoWholeTeams | src/modules/tournaments/tournament-progression.service.ts:320-358 | Any four distinct finalists a correction accepts are two complete, different teams |
| Desk.CorrectionGoesThrough | src/modules/tournaments/tournament-progression.service.ts:303-358 | A correction is accepted exactly when it repeats a recorded request, or the tournament is completed, the four names are two whole teams and none of the undisputed is overdrawn; which requests are recorded is PrizeMoney.OnlyAcceptedCorrectionsCount |
| Desk.FreshCorrectionSane | src/modules/tournaments/tournament-progression.service.ts:359-472 | An accepted new correction pays the whole prize pool at the next version and keeps bracket, roster and ledger right |
| Desk.RecrownCrowns | src/modules/tournaments/tournament-progression.service.ts:402-430 | After a correction exactly the named teams hold CHAMPION and RUNNER_UP, whatever was there before, and no other placement moves |
| PrizeMoney.FinalPaysItsWinners | src/modules/tournaments/tournament-progression.service.ts:230-252 | The result of the final: every wallet moves by the share of the player's place — 70% of the pool rounded down for the winners of the final, the rest for the losers, nothing for a disqualified loser — every disputed finalist holds exactly the own share as an award, and everybody else gets nothing |
| PrizeMoney.FinalIsSettled | src/modules/tournaments/tournament-progression.service.ts:683-805 | What the settlement writes: one award for each paid finalist with status, placement and amount, the pool, version 1, the placements on the registrations, and no change to anything else |
| PrizeMoney.OtherResultsPayNothing | src/modules/tournaments/tournament-progression.service.ts:253-287 | A result before the final leaves purse, registrations and recorded corrections as they were |
| PrizeMoney.CorrectionPaysTheNamed | src/modules/tournaments/tournament-progression.service.ts:359-466 | After an accepted new correction every wallet holds the player's other money and the share of the place named for the player's team; every earlier award is REVERSED and the named teams have the awards of the next version |
| PrizeMoney.OnlyAcceptedCorrectionsCount | src/modules/tournaments/tournament-progression.service.ts:303-311 | A step records a request id if and only if it is an accepted new correction with that id; a refused correction does not use its id up |
| PrizeMoney.CorrectionIsMadeOnce | src/modules/tournaments/tournament-progression.service.ts:303-311 | After an accepted correction and any further steps the same request, with any lists and disputes, leaves the tournament exactly as it is |
| PrizeMoney.ExpelIs | src/modules/tournaments/tournament-progression.service.ts:533-565 | A disqualification marks the registration and the team, reverses exactly the player's held awards and moves no wallet |
| Standings.CorrectionMovesFirstPlace | src/modules/tournaments/tournament-progression.service.ts:402-430 | An accepted new correction takes the runner-up out of the teams placed first and puts the champion in, and the other way round for second place |
| Standings.OneFirstPlaceExactlyWhenWinnerIsNamed | src/modules/tournaments/tournament-progression.service.ts:402-430 | After the first accepted correction of a tournament exactly one team is placed first if and only if it names the winner of the final; otherwise two are |
| Knockout.TwoFirstPlacesHappen | src/modules/tournaments/tournament-progression.service.ts:402-430 | From every point of every drawn tournament of at least four teams that has not been corrected yet, some run ends with two teams placed first |
| Standings.UncorrectedRunIsRanked | src/modules/tournaments/tournament-progression.service.ts:230-235 | Over every run without a correction only the winner of the final is ever placed first |
| Knockout.CanBeCompleted | src/modules/tournaments/tournament-progression.service.ts:142-288 | From every point of every tournament, whoever is overdrawn, disqualified or corrected, some run of match ends and results completes it, and a team without a lost match stays unbeaten on that run |
| Knockout.CanStillWinExactlyWhenUnbeaten | src/modules/tournaments/tournament-progression.service.ts:190-287 | A team, disqualified or not, can still win the final if and only if it has lost no decided match |
| Standings.EveryTournament | src/modules/tournaments/tournament-progression.service.ts:98-605 | From start on, over every run: bracket, registrations and ledger stay right, IN_PROGRESS exactly while a match is unapplied, COMPLETED exactly at teams − 1 results, and each player's prize rows net to the credited awards |
| Standings.RunShowsPlacements | src/modules/tournaments/tournament-progression.service.ts:697-707 | Over every run every registration of a completed tournament shows the placement of its team |
| Knockout.DisqualifiedCanStillWinExactlyWhen | src/modules/tournaments/tournament-progression.service.ts:555-605 | After a disqualification the player's team can still win the final if and only if the player was in no running match and the team had lost no decided match |
| Knockout.DisqualifiedChampionHappens | src/modules/tournaments/tournament-progression.service.ts:230-235 | Every player of every drawn tournament of at least four teams can be disqualified on some run whose continuation makes that player's team CHAMPION |
| PrizesWon.EveryRunShowsPrizes | src/modules/tournaments/tournament-progression.service.ts:401-552 | Over every run a registration shows a prize exactly when its player has a credited award of the current version and was not disqualified since the last settlement, and then it shows that award's amount |
| Desk.OneActiveMatch | src/modules/tournaments/tournament-progression.service.ts:566-573 | The running match a disqualification finds is the only one the player is in |
| Desk.DisqualifySane | src/modules/tournaments/tournament-progression.service.ts:533-605 | A disqualification writes its own rows and, exactly when the player is in a running match, forfeits it and applies that result at once |
| Desk.ForfeitLoses | src/modules/tournaments/tournament-progression.service.ts:566-603 | In the running match of a disqualified player the player's own team becomes the loser |
| TournamentProgression.Service.Start | src/modules/tournaments/tournament-progression.service.ts:72-167 | Cancels an unstartable field, otherwise draws, pairs and seats round 1; a second call changes nothing |
| TournamentProgression.Service.ApplyCompletedMatch | src/modules/tournaments/tournament-progression.service.ts:169-288 | The row-by-row method leaves the tables as Desk.ApplyMatch says, or rolls everything back on a refusal; whom that pays and what a result before the final leaves alone is PrizeMoney.FinalPaysItsWinners, PrizeMoney.FinalIsSettled and PrizeMoney.OtherResultsPayNothing |
| TournamentProgression.Service.AdvanceWinners | src/modules/tournaments/tournament-progression.service.ts:253-287 | Creates the next match exactly once both sources are applied |
| TournamentProgression.Service.CreateMatch | src/modules/tournaments/tournament-progression.service.ts:807-868 | A match is created once per round and slot |
| TournamentProgression.Service.Settle | src/modules/tournaments/tournament-progression.service.ts:683-805 | The award loop pays, holds and stamps as specified or rolls back |
| TournamentProgression.Service.CorrectResults | src/modules/tournaments/tournament-progression.service.ts:290-472 | Reversal, drop of holds, crowning, renewed payment and the recorded request id as Desk.CorrectDesk says, or rolled back; whom that pays is PrizeMoney.CorrectionPaysTheNamed, that it is made once PrizeMoney.CorrectionIsMadeOnce |
| TournamentProgression.Service.ReleaseHeldAwards | src/modules/tournaments/tournament-progression.service.ts:474-531 | The loop over held awards credits all of them or none |
| TournamentProgression.Service.DisqualifyPlayer | src/modules/tournaments/tournament-progression.service.ts:533-605 | Refines the specified disqualification, forfeit and result included |
| Disputes.EveryRun | src/modules/disputes/disputes.service.ts:76-142 | Over every run from a drawn tournament of filings, appeals, verdicts, late, lost, refused and repeated second transactions, results and corrections: a prize is HELD only while its player has an open case, a verdict still to be carried out, or a case that named the final and not the tournament |
| Disputes.NothingHeldOnceCarriedOut | src/modules/disputes/disputes.service.ts:115-142 | Over every such run, with every case resolved and carried out and none that named only the final, no prize is left held |
| Disputes.LetsGoExactlyWhen | src/modules/disputes/disputes.service.ts:120-142 | A resolution frees a held prize if and only if the case names the tournament and the verdict is a disqualification, or no other case is open and the wallet is not overdrawn |
| CaseRules.DisputedAre | src/modules/tournaments/tournament-progression.service.ts:728-740 | A settlement holds for open cases on the tournament or its final, a correction and a release only for those on the tournament |
| CaseRules.CaseIsRight | src/modules/disputes/repositories/disputes.repository.ts:90-107 | A case is filed once, appealed or closed only while it is open, and closed with the verdict, the admin and the note given |
| CaseRules.VerdictIsRight | src/modules/disputes/disputes.service.ts:123-142 | Carrying a verdict out: nothing for another tournament; a clearance pays exactly the player's held prizes unless another case waits or the wallet is overdrawn; a disqualification strikes the player, out of a running match as well |
| CaseRules.ReleaseIsRight | src/modules/tournaments/tournament-progression.service.ts:474-531 | A release credits every held prize of the player in full, moves that wallet by their sum and no other, and sets `settledAt` exactly when nobody else's prize is held |
| CaseRules.EveryVerdictHasItsReason | src/modules/disputes/disputes.service.ts:76-142 | Over every run from a drawn tournament each case is about what it was filed for, a closed one was closed as it says, and nobody is disqualified without a case on the tournament closed with that verdict |
| Disputes.ClearedCaseStillHolds | src/modules/disputes/disputes.service.ts:120-142 | A run from a drawn tournament: a case naming only the final holds a prize at settlement, is cleared and carried out, and the prize is still held |
| Disputes.ClearingAgainChangesNothing | src/modules/disputes/disputes.service.ts:84-93 | An exact retry of a clearance pays nothing a second time |
| Disputes.DisqualifyingAgainChangesNothing | src/modules/disputes/disputes.service.ts:127-135 | Carrying out a disqualification a second time changes nothing |
| Disputes.AfterSettlementDisqualifyOnlyExpels | src/modules/disputes/disputes.service.ts:127-135 | Once prizes exist a disqualification touches no match |
| Disputes.FinalistsHolds | src/modules/tournaments/tournament-progression.service.ts:725-760 | A settlement holds prizes only of finalists in dispute |
| Disputes.DisputesService.CloseCase | src/modules/disputes/repositories/disputes.repository.ts:90-107 | Of two admins resolving one case only the first writes a verdict |
| Disputes.DisputesService.ReconcileTournamentResolution | src/modules/disputes/disputes.service.ts:121-142 | Releases or disqualifies in the tournament the case names, otherwise changes nothing |
| Disputes.DisputesService.Resolve | src/modules/disputes/disputes.service.ts:76-119 | Which answer each call gets from what it read and what the row has become since; the loser of a race continues only on the same verdict |
| Ledger.EveryRunIsSound | src/modules/transactions/repositories/transactions.repository.ts:95-156 | Over every sequence of ledger writes references stay unique, each user's rows form one chain and the balance is the opening balance plus the sum of the rows |
| Ledger.RecordKeepsSound | src/modules/transactions/repositories/transactions.repository.ts:95-156 | One accepted write keeps unique references and every user's chain |
| Ledger.AcceptedExactlyWhenCovered | src/modules/transactions/repositories/transactions.repository.ts:101-128 | A new entry is accepted if and only if the balance is non-negative before and after, credits included |
| Ledger.WriteIsRight | src/modules/transactions/repositories/transactions.repository.ts:95-156 | An accepted write appends one row with user, kind, amount, reference and both balances and moves that balance by the amount; a refused one has the first reason that applies |
| Ledger.ChainTotals | src/modules/transactions/transactions.service.ts:144-154 | A chain of rows moves the balance by exactly their sum |
| Ledger.LedgerTable.RecordEntry | src/modules/transactions/repositories/transactions.repository.ts:95-156 | Appends one row and moves one balance, or refuses and changes nothing |
| Ledger.LedgerTable.ReferenceTaken | src/modules/transactions/transactions.service.ts:140-142 | Says whether some row carries the reference |
| Ledger.VerifyIntegrity | src/modules/transactions/transactions.service.ts:155-189 | Lists exactly the checked users whose balance differs from the sum of their rows, once each and in their order, with difference and number of rows |
| Ledger.CountedIs | src/modules/transactions/transactions.service.ts:155-189 | The row count an integrity issue carries is the number of the user's rows that affect the balance |
| Matchmaking.EveryRun | src/modules/player-social/player-social.service.ts:283-585 | Over every run: accepted waiting challenges pairwise share a player, at most one open challenge per pair, no player in two matches made from challenges, each such match made from two disjoint challenges, and the pool is a star or has at most three challenges |
| Matchmaking.RunIsGood | src/modules/player-social/player-social.service.ts:283-585 | The five invariants hold after every run of creations, acceptances, refusals, blocks, match ends and time passing |
| Matchmaking.AcceptKeepsGood | src/modules/player-social/player-social.service.ts:385-467 | An acceptance keeps all of them, also when it is refused |
| Consent.CreateExactlyWhen | src/modules/player-social/player-social.service.ts:319-373 | A new challenge is accepted if and only if the two are friends, the friend is online, neither blocked the other or is in a match, and no challenge of the two is under way; it is pending for two minutes; a repeated request changes nothing |
| Consent.AcceptExactlyWhen | src/modules/player-social/player-social.service.ts:385-467 | An acceptance goes through if and only if the caller is the challenged player, the challenge is open, both are free, and the longest waiting challenge without a common player, if there is one, has free and eligible players; which challenges and which match it writes is stated |
| Consent.ResolveExactlyWhen | src/modules/player-social/player-social.service.ts:469-500 | Only the challenged player declines and only the challenger cancels, and only an open challenge; a repetition changes nothing |
| Consent.BlockExactlyWhen | src/modules/player-social/player-social.service.ts:283-310 | A block of another, existing player stands afterwards and cancels exactly the open challenges between the two, in both directions |
| Consent.OthersAreTurnedAway | src/modules/player-social/player-social.service.ts:591-602 | A stranger does not find a challenge, and only the challenged player accepts or declines it, only the challenger cancels it |
| Consent.EveryStatusHasItsReason | src/modules/player-social/player-social.service.ts:319-500 | Over every run from the empty board every challenge was made by its challenger, an accepted or matched one was accepted by its own challenged player, a declined one declined by that player, a cancelled one cancelled by its challenger or ended by a block of the two |
| Consent.EveryPlayerAgreed | src/modules/player-social/player-social.service.ts:430-467 | Every player of a match made from challenges sent one of its two challenges or accepted it |
| Matchmaking.FirstAcceptance | src/modules/player-social/player-social.service.ts:407-460 | A first acceptance makes a match exactly when some waiting challenge is disjoint from it, and then with the earliest such one |
| Matchmaking.RefusedByTheFirstInLine | src/modules/player-social/player-social.service.ts:421-460 | An otherwise good acceptance is refused exactly when the earliest disjoint waiting pair is busy, blocked or ineligible: later pairs are not tried |
| Matchmaking.RefusedDespiteAFreePair | src/modules/player-social/player-social.service.ts:421-460 | When some waiting pair could serve a first acceptance, it is refused all the same if and only if an earlier disjoint pair could not |
| Matchmaking.FreePairPassedOver | src/modules/player-social/player-social.service.ts:421-460 | A run from the empty board in which an acceptance is refused because a player of the earliest waiting pair is busy, while a later pair could serve |
| Matchmaking.AcceptingAgainChangesNothing | src/modules/player-social/player-social.service.ts:413-440 | Accepting an accepted, unmatched challenge again never makes a match |
| Matchmaking.StarOrTriangle | src/modules/player-social/player-social.service.ts:421-440 | The waiting pool has a player common to all its challenges, or lives on three players |
| Matchmaking.TriangleIsSmall | src/modules/player-social/player-social.service.ts:352-361 | A pool on three players has at most three challenges |
| Matchmaking.ChallengeTables.AcceptChallenge | src/modules/player-social/player-social.service.ts:385-467 | The method leaves the tables as Accept says or rolls back; who may accept, when, and what is written is Consent.AcceptExactlyWhen |
| Matchmaking.ChallengeTables.FindOpponent | src/modules/player-social/player-social.service.ts:421-439 | Finds the earliest disjoint waiting challenge |
| Matchmaking.ChallengeTables.StartMatch | src/modules/matches/matches.service.ts:201-260 | Seats team mates opposite each other, or refuses four players who are not distinct and eligible |
| Matchmaking.ChallengeTables.ExpireChallenges | src/modules/player-social/player-social.service.ts:574-585 | Expires exactly the open challenges whose time is over |
| Matchmaking.ChallengeTables.CreateChallenge | src/modules/player-social/player-social.service.ts:319-373 | Creates one pending challenge or answers a repeated request id without change |
| Matchmaking.ChallengeTables.ResolveChallenge | src/modules/player-social/player-social.service.ts:469-500 | Declines or cancels an open challenge; repeating it is accepted |
| Matchmaking.ChallengeTables.BlockPlayer | src/modules/player-social/player-social.service.ts:283-310 | Blocks and cancels the open challenges between the two players |
| Leaderboard.OrderDoesNotMatter | src/modules/leaderboards/leaderboard.formula.ts:89-126 | The rating table depends only on which matches are given, not on their order, when ids are distinct |
| Leaderboard.OneListing | src/modules/leaderboards/leaderboard.formula.ts:128-163 | There is exactly one ranked listing of a table |
| Leaderboard.ViewDoesNotDependOnOrder | src/modules/leaderboards/leaderboard.formula.ts:65-212 | Page, total and viewer's card, percentile and local rank included, are the same in whatever order the matches are read |
| Leaderboard.WinnersNeverLose | src/modules/leaderboards/leaderboard.formula.ts:109-125 | In one match no winner loses rating, no loser gains any, and nobody moves by more than 24 |
| Leaderboard.TableIsOk | src/modules/leaderboards/leaderboard.formula.ts:101-126 | After every series of matches each rating is within 24 per game of 1500, wins are at most games, and only eligible players with a game are listed |
| Leaderboard.MatchShiftsTotal | src/modules/leaderboards/leaderboard.formula.ts:109-125 | A match moves the total rating by the common amount times the difference of the counted seats of the two sides; the amount is RatingLaws.EachSeatMoves |
| RatingLaws.EachSeatMoves | src/modules/leaderboards/leaderboard.formula.ts:109-125 | For any numbers that are the mean ratings of the counted seats of the two sides, each counted player of side 0 moves by the integer nearest to 24 times the result less the expected score of the first mean against the second, halves up, and each of side 1 by its negative |
| RatingLaws.MatchIsRated | src/modules/leaderboards/leaderboard.formula.ts:101-126 | A rated match changes exactly its counted players, each by that move and by one game, one win or none and the result appended; any other match changes nothing |
| RatingLaws.StrongerNeverGainsMore | src/modules/leaderboards/leaderboard.formula.ts:109-125 | For an expected score that rises with the own and falls with the other strength, a stronger side against a weaker one never gains more |
| RatingLaws.TableComesFromPlaying | src/modules/leaderboards/leaderboard.formula.ts:89-126 | The table comes from playing exactly the completed matches of the period with a winner, once each and in order of completion |
| RatingLaws.EligibleAre | src/modules/leaderboards/leaderboard.formula.ts:73-77 | Exactly the active, visible players are eligible |
| RatingLaws.ListingTells | src/modules/leaderboards/leaderboard.formula.ts:128-152 | Everybody in the table is listed once, with the rating, games, wins, win percentage and streak the table has |
| RatingLaws.ListedInOrder | src/modules/leaderboards/leaderboard.formula.ts:134-163 | The list is ordered by rating, wins and name, and a rank is one more than the entries strictly ahead |
| RatingLaws.PageHolds | src/modules/leaderboards/leaderboard.formula.ts:195-212 | The page holds the entries from (page − 1) · limit on, `limit` of them unless the list ends |
| RatingLaws.PercentileIs | src/modules/leaderboards/leaderboard.formula.ts:183-193 | The percentile is the least integer not below the rank's share of the list, and at least 1 |
| RatingLaws.CardTells | src/modules/leaderboards/leaderboard.formula.ts:165-212 | The viewer's card is the viewer's own entry with its percentile and the rank among the listed players of the country |
| RatingLaws.CountryIs | src/modules/leaderboards/leaderboard.formula.ts:165-172 | A player's country is that of the player's own row |
| Leaderboard.RatingIsConserved | src/modules/leaderboards/leaderboard.formula.ts:101-126 | Matches with equally many counted seats per side conserve the total rating |
| Leaderboard.RanksAreRight | src/modules/leaderboards/leaderboard.formula.ts:154-163 | The single pass gives rank 1 + the number of entries strictly better on rating, wins and games |
| Leaderboard.AssignRanks | src/modules/leaderboards/leaderboard.formula.ts:154-163 | The loop computes those ranks and changes nothing else |
| Leaderboard.LocalRank | src/modules/leaderboards/leaderboard.formula.ts:165-182 | The local rank is 1 + the number of strictly better entries of the viewer's country |
| Leaderboard.LocalRankFits | src/modules/leaderboards/leaderboard.formula.ts:165-182 | The local rank is at most the rank, and equal to it when all share a country |
| Leaderboard.PercentileInRange | src/modules/leaderboards/leaderboard.formula.ts:183-193 | Rank lies in 1..n and the percentile in 1..100, rounded up |
| Leaderboard.ListedEntriesAreSound | src/modules/leaderboards/leaderboard.formula.ts:128-163 | Every listed entry belongs to an eligible player with a game, with win rate in 0..100, streak at most wins and rank in range |
| Leaderboard.StreakWithinWins | src/modules/leaderboards/leaderboard.formula.ts:52-57 | A current streak is never longer than the number of wins |
| Leaderboard.CurrentStreak | src/modules/leaderboards/leaderboard.formula.ts:52-57 | The backward loop counts the wins at the end |
| Leaderboard.PlayMatches | src/modules/leaderboards/leaderboard.formula.ts:101-126 | The mutable stats loop computes the fold of the matches, whose every step is RatingLaws.MatchIsRated |
| Leaderboard.ListEntries | src/modules/leaderboards/leaderboard.formula.ts:128-163 | Listing, sorting and ranking produce the listing of the table |
| Leaderboard.BuildLeaderboard | src/modules/leaderboards/leaderboard.formula.ts:65-212 | The page, the total and the viewer's own card come from the one listing of the chosen matches; no card for a viewer who is not listed |
| Leaderboard.FewerEntriesThanPlayers | src/modules/leaderboards/leaderboard.service.ts:59-77 | There are never more entries than players, so one page of that size holds them all |
| Leaderboard.EntriesFor | src/modules/leaderboards/leaderboard.service.ts:59-77 | Returns an entry for exactly the wanted players that are listed |
| SpadesEngine.DealIsFair | src/modules/matches/engine/spades.engine.ts:81-90 | A deal hands out the deck exactly, thirteen cards a seat |
| SpadesEngine.ShuffleDeck | src/modules/matches/engine/spades.engine.ts:56-66 | The in-place shuffle is a permutation of the deck for every sequence of random draws |
| SpadesEngine.LegalExactly | src/modules/matches/engine/spades.engine.ts:152-164 | A held card is legal exactly when it follows suit if it can and does not lead an unbroken spade while another suit is held; a non-empty hand always has a legal card |
| SpadesEngine.TrickWinnerIsRight | src/modules/matches/engine/spades.engine.ts:166-191 | The fold picks exactly the seat with the highest spade or, without spades, the highest card of the suit led |
| SpadesEngine.PenaltyIsExact | src/modules/matches/engine/spades.engine.ts:226-230 | The penalty loop takes 100 points for every full ten bags and leaves the remainder |
| SpadesEngine.BagsStayBelowTen | src/modules/matches/engine/spades.engine.ts:193-231 | Between hands a side never has ten or more bags; the worth of a hand is PlayRules.ScoreIsRight |
| PlayRules.ScoreIsRight | src/modules/matches/engine/spades.engine.ts:193-231 | A side's score after a hand is the old one plus the worth of its two nils and its contract, less 100 for each ten bags reached |
| PlayRules.ContractIsPaid | src/modules/matches/engine/spades.engine.ts:208-230 | Without nils a set contract costs exactly ten per trick bid and adds no bag; a made one gains ten per trick bid and one per overtrick, less 100 for each ten bags reached |
| PlayRules.NilIsPaid | src/modules/matches/engine/spades.engine.ts:193-207 | A nil adds 100, or 200 if blind, if and only if its seat took no trick, and otherwise costs that |
| PlayRules.HandEndsRight | src/modules/matches/engine/spades.engine.ts:250-287 | The match ends if and only if some side has at least 500 and the scores differ, the winner has strictly more; otherwise the next hand starts with the next dealer |
| PlayRules.DealGoesRound | src/modules/matches/engine/spades.engine.ts:81-90 | Card k of the deck goes to the seat k + 1 places after the dealer |
| PlayRules.StartIsRight | src/modules/matches/engine/spades.engine.ts:92-113 | A new match starts at 0:0 with the dealer's left to bid |
| PlayRules.BidIsRight | src/modules/matches/engine/spades.engine.ts:121-150 | A bid is accepted if and only if it is the seat's turn in the bidding and the bid is valid, and sets that bid and the turn; the fourth opens play at the dealer's left |
| PlayRules.CardIsRight | src/modules/matches/engine/spades.engine.ts:289-336 | A card is accepted if and only if it is the seat's turn in play and the card is legal; it leaves the hand and joins the trick, the fourth card gives the trick to its winner, who leads, and the thirteenth trick scores the hand |
| PlayRules.GivingUpIsRight | src/modules/matches/engine/spades.engine.ts:338-349 | A forfeit ends a running match for the other side |
| PlayRules.TimeoutIsRight | src/modules/matches/engine/spades.engine.ts:351-383 | A timeout of a running match bids one or plays the first legal card in suit order for the seat to act |
| SpadesEngine.PerformKeepsFair | src/modules/matches/engine/spades.engine.ts:121-383 | Every accepted command keeps all 52 cards accounted for, hand sizes, bids, turn order and tricks consistent, and raises the version by one |
| SpadesEngine.NeverStuck | src/modules/matches/engine/spades.engine.ts:121-383 | A running match always has a move: every valid bid, every legal card and the timeout are accepted; a finished one accepts nothing |
| MatchCommands.EveryRun | src/modules/matches/matches.service.ts:347-493 | For every stream of commands with repeats and of disqualifications: no (user, key) pair is accepted twice, events are numbered contiguously up to the version, and the snapshot is the engine folded over the accepted commands, forfeited once more if a disqualification struck while the match ran |
| MatchCommands.ForcedStays | src/modules/tournaments/tournament-progression.service.ts:566-603 | A match forfeited by a disqualification is never written to again, by a command or by a second disqualification |
| MatchCommands.Match.Disqualify | src/modules/tournaments/tournament-progression.service.ts:574-603 | Forfeits a running match of the player with one event and no command row, and leaves any other match alone |
| MatchCommands.SubmitKeepsConsistent | src/modules/matches/matches.service.ts:347-493 | One accepted command keeps that and raises the version by one |
| PlayRules.CommandIsRight | src/modules/matches/matches.service.ts:347-493 | A command goes through if and only if a seated player with a valid entry sends it under a new key against the current version and the rules allow it — a timeout claim only after the deadline, a blind nil only before the hand is revealed — and then does what the rules say, with one command row and one event |
| PlayRules.OnlyPlayersCommand | src/modules/matches/matches.service.ts:509-531 | Nobody without a seat or a valid entry changes a match |
| PlayRules.OpeningIsRight | src/modules/matches/matches.service.ts:223-258 | A new match is at version 1 with its creation event, no command, nothing scored and the dealer's left to bid |
| PlayRules.ExpulsionIsRight | src/modules/tournaments/tournament-progression.service.ts:574-603 | A disqualification ends a running match of the player for the other side with one event, and leaves every other match alone |
| MatchCommands.RepeatsAreDropped | src/modules/matches/matches.service.ts:362-378 | A used (user, idempotency key) is answered as a duplicate whatever it now contains |
| MatchCommands.Match.Command | src/modules/matches/matches.service.ts:347-493 | Accepts, answers as duplicate or refuses; only an acceptance writes |
| MatchCommands.Match.constructor | src/modules/matches/matches.service.ts:223-258 | A new match starts at version 1 with its creation event |
| MatchLog.AnalyzeMatch | src/modules/player-overview/player-progression.formula.ts:126-200 | The one-pass analysis means: cut the log into hands at HAND_COMPLETED and MATCH_COMPLETED; nils are the hands bid 0 and won none, an exact win needs a hand with its bid met, a comeback win a hand begun 200 behind |
| MatchLog.CutIsRight | src/modules/player-overview/player-progression.formula.ts:138-192 | The cut splits the log into hands that each end at their one closing event, with an open rest |
| MatchLog.TrickWinnerOf | src/modules/player-overview/player-progression.formula.ts:105-124 | Answers only for four cards, with the seat of the best |
| MatchLog.BestAgrees | src/modules/player-overview/player-progression.formula.ts:105-124 | The analyser and the engine name the same best card of a trick |
| MatchLog.UnloggedBidNeverCounts | src/modules/player-overview/player-progression.formula.ts:178-181 | A hand whose bid is not in the log counts neither as nil nor as exact |
| MatchLog.TimeoutsAreInvisible | src/modules/player-overview/player-progression.formula.ts:147-154 | Removing the TURN_TIMED_OUT events changes no verdict about nils or exact bids |
| MatchLog.Streaks | src/modules/player-overview/player-progression.formula.ts:223-237 | `current` is the longest winning run at the end and `best` the longest anywhere |
| MatchLog.ProgressionFor | src/modules/player-overview/player-progression.formula.ts:239-259 | The rank is the highest whose threshold is reached, and the percentage is the floor of the part of the way to the next |
| LogFidelity.LogTracksEngine | src/modules/player-overview/player-progression.formula.ts:138-192 | For every engine run, from any point where the log is in step, up to the first card that a timeout plays, the analyser's tricks, scores and logged bids follow the engine event by event, and a bid made by a timeout is missing and was one |
| LogFidelity.ReportIsTrue | src/modules/player-overview/player-progression.formula.ts:126-200 | For every run in which no timeout bid or played a card (one that forfeits the match is allowed) the report is true of the game: nils kept, bids met exactly and deficits at hand starts as the engine scored them |
| LogFidelity.HandIsReadRight | src/modules/player-overview/player-progression.formula.ts:138-192 | In any run, timeouts or not: a hand whose cards were all played by the players, after a hand ended by a card, gives the right verdict on every nil and deficit, and on the exact bid of a seat unless a timeout bid for it and it won exactly one trick, when the verdict is wrong |
| LogFidelity.LoggedEndResynchronises | src/modules/player-overview/player-progression.formula.ts:164-192 | A hand end played by a card puts analyser and engine back in step, whatever came before, silent bids and cards included |
| LogFidelity.EndsByCard | src/modules/matches/matches.service.ts:425-441 | A logged event closes a hand if and only if a played card ended it; the other hand ends are timeouts |
| LogFidelity.HandsAreAllThereExactlyWhen | src/modules/player-overview/player-progression.formula.ts:138-192 | The log has as many finished hands as the game if and only if every hand was ended by a played card, and never more |
| LogFidelity.SilentEndMergesHands | src/modules/matches/matches.service.ts:425-441 | A hand ended by a timeout does not close in the log: its events run on into the next hand |
| LostHands.TimedOutLastCardLosesANil | src/modules/matches/matches.service.ts:425-441 | A run from a dealt deck in which a timeout plays the last card: the engine kept a nil and the report counts none |
| Payouts.EveryInterleaving | src/modules/payouts/payouts.service.ts:411-547 | Under every interleaving of process calls, refusals, lost responses, crashes, stale recovery, webhooks, approvals and cancellations: at most one transfer and one `payout:{id}` row per payout; PAID implies exactly one transfer, for the payout's amount and to be found under its id, and for a prize exactly one row |
| Payouts.AtMostOneEach | src/modules/payouts/repositories/payouts.repository.ts:639-738 | In every good state a payout has at most one transfer and one ledger row |
| Payouts.NextKeepsGood | src/modules/payouts/payouts.service.ts:411-547 | Each single step of that protocol keeps its invariant |
| TransferRules.RowIsRight | src/modules/payouts/repositories/payouts.repository.ts:504-921 | What each step of the protocol does to a payout row, by status, transfer and time limits written out; every other step leaves it alone |
| TransferRules.TransfersAre | src/modules/payouts/payouts.service.ts:455-490 | Stripe gets a new transfer exactly when a worker with a claim sends one for a payout that has none, for the payout's amount |
| TransferRules.LedgerIs | src/modules/payouts/repositories/payouts.repository.ts:656-738 | A prize paid for the first time leaves exactly one row of its amount, a failed payout has its rows marked, and nothing else writes |
| TransferRules.RecordingIsRight | src/modules/payouts/repositories/payouts.repository.ts:639-738 | Recording a transfer succeeds for the first transfer of a payout in process or approved, answers the same transfer again without a change, and is refused otherwise |
| TransferRules.WorkersAre | src/modules/payouts/payouts.service.ts:411-547 | A worker starts only on an unsent, approved or abandoned payout over Stripe of a verified recipient with a positive amount, and then goes on with the same payout |
| TransferRules.EveryTransferWasApproved | src/modules/payouts/payouts.service.ts:411-547 | Under every interleaving each transfer at Stripe is of a payout that an admin approved and a worker found fit to send |
| Payouts.TransfersAreNotShared | src/modules/payouts/repositories/payouts.repository.ts:642-655 | Two payouts never record the same transfer |
| Payouts.KeysTellPayoutsApart | src/modules/payouts/payouts.service.ts:100-102 | Different payouts have different idempotency keys and ledger references |
| Payouts.AmountsNeverChange | src/modules/payouts/payouts.service.ts:393-547 | No step changes a payout's amount |
| Payouts.GuardsMatchTable | src/modules/payouts/payout-status.ts:29-65 | The approval and cancellation guards are the columns of the transition table |
| Payouts.StatusChanges | src/modules/payouts/repositories/payouts.repository.ts:504-921 | No step makes a status change outside a fixed list, and CANCELLED is final |
| Payouts.LeavesTableExactlyWhen | src/modules/payouts/payout-status.ts:29-50 | A status change leaves the transition table if and only if it is the release by a failing worker of a PROCESSING payout, an accepted record on an APPROVED one, or the failure of the recorded transfer of a PAID one |
| Payouts.ReleaseHappens | src/modules/payouts/repositories/payouts.repository.ts:749-758 | A run from a fresh world in which PROCESSING goes back to APPROVED |
| Payouts.LateRecordHappens | src/modules/payouts/repositories/payouts.repository.ts:639-655 | A run from a fresh world in which APPROVED becomes PAID |
| Payouts.FailureHappens | src/modules/payouts/repositories/payouts.repository.ts:867-921 | A run from a fresh world in which PAID becomes FAILED |
| Payouts.RecordedIsNeverProcessedAgain | src/modules/payouts/payouts.service.ts:841-882 | A payout with a recorded transfer can never be processed or claimed again, re-approved or not |
| Payouts.CancelledMeansUnsentExactlyWhenClean | src/modules/payouts/repositories/payouts.repository.ts:538-582 | A cancelled payout was and will never be sent if and only if no transfer exists and no worker holds a claim on it |
| Payouts.CancelCanHideATransfer | src/modules/payouts/repositories/payouts.repository.ts:749-758 | After a lost Stripe response the release lets a sent payout be cancelled with no local trace of the transfer |
| Payouts.TransferEventsTakeEffectOnce | src/modules/payouts/payouts.service.ts:750-798 | The effects of a transfer.failed or transfer.paid event on its payout, carried out again after any later steps, change nothing more |
| Withdrawals.EveryRun | src/modules/payouts/repositories/payouts.repository.ts:504-921 | Over every run of requests, cancellations by players and admins, approvals, transfers with lost responses and crashes, failure reports and other movements of money: a wallet holds its opening balance and what came from elsewhere less the withdrawals not given back; a withdrawal is given back, once and in full, exactly when its payout is CANCELLED or failed after being paid; its reservation is COMPLETED exactly while the payout is PAID |
| Withdrawals.ActKeeps | src/modules/player-withdrawals/repositories/player-withdrawals.repository.ts:89-259 | Each single step keeps requests, payouts and ledger in agreement, and only a movement of other money changes wallet plus withdrawals under way |
| WithdrawalRules.AskIsRight | src/modules/player-withdrawals/repositories/player-withdrawals.repository.ts:89-202 | A withdrawal is opened if and only if the player is eligible and the wallet covers it; it opens a payout under review, a reserved request and one debit of the amount; a repeated request changes nothing |
| WithdrawalRules.RequestIsRight | src/modules/player-withdrawals/repositories/player-withdrawals.repository.ts:204-259 | What every step does to a request: only its own player takes it back, only an admin's cancellation declines it, only a recorded transfer completes it, only an approval of its payout approves it |
| WithdrawalRules.PayoutIsRight | src/modules/payouts/repositories/payouts.repository.ts:504-921 | A payout of a wallet moves as without wallets, unless the wallet refuses the money that would come back |
| WithdrawalRules.BookIsRight | src/modules/payouts/repositories/payouts.repository.ts:567-582 | Money that comes back is one credit of the whole amount to the player of the request; a step that returns none leaves the book alone |
| WithdrawalRules.EveryRequestHasItsReason | src/modules/player-withdrawals/repositories/player-withdrawals.repository.ts:89-259 | Over every run each withdrawal was asked for by its player, each approval, refusal and cancellation has its step, money came back only by those or after a reported failure, and only an approved withdrawal is completed |
| Withdrawals.RefusedExactlyWhenOverdrawn | src/modules/payouts/repositories/payouts.repository.ts:550-566 | A cancellable payout cannot be cancelled, and a paid one not reported as failed, if and only if its withdrawal was not given back yet and the wallet of its player is negative |
| Withdrawals.CanDoubleExactlyWhen | src/modules/payouts/repositories/payouts.repository.ts:538-582 | Money that a cancellation gave back can turn out to have been sent as well, now or in some continuation, if and only if a transfer was made or a worker holds a claim |
| Withdrawals.GivenBackAndSent | src/modules/payouts/repositories/payouts.repository.ts:749-758 | From every state that some run reaches, any player with money has a run that ends with a withdrawal sent by Stripe and given back to the wallet in full |
| Withdrawals.PayoutTables.ApprovePayout | src/modules/payouts/repositories/payouts.repository.ts:504-536 | Approves payout and request under review together, only from an approvable status |
| Withdrawals.PayoutTables.CancelPayout | src/modules/payouts/repositories/payouts.repository.ts:538-582 | Cancels from a cancellable status and gives the money back unless it was already, or rolls back |
| Withdrawals.PayoutTables.ClaimForProcessing | src/modules/payouts/repositories/payouts.repository.ts:591-629 | A claim takes an approved or stale payout without a transfer, and shuts other workers out for the recovery time |
| Withdrawals.PayoutTables.MarkPaid | src/modules/payouts/repositories/payouts.repository.ts:639-738 | Records transfer, status and either the ledger row or the completed reservation together, or answers with what is already recorded, or refuses |
| Withdrawals.PayoutTables.ReleaseAfterFailure | src/modules/payouts/repositories/payouts.repository.ts:749-758 | Puts only a PROCESSING payout back to APPROVED |
| Withdrawals.PayoutTables.MarkFailed | src/modules/payouts/repositories/payouts.repository.ts:867-921 | Fails a PROCESSING or PAID payout with its out-of-balance rows and gives the money back unless it was already, or rolls back |
| Withdrawals.PayoutTables.CreateRequest | src/modules/player-withdrawals/repositories/player-withdrawals.repository.ts:89-202 | Reserves the amount, opens request and payout once per request id, or changes nothing |
| Withdrawals.PayoutTables.CancelOwned | src/modules/player-withdrawals/repositories/player-withdrawals.repository.ts:204-259 | Takes back an own request under review with its money and cancels its payout, or rolls back |
| WebhookInbox.AppliedAgainExactlyWhenReopened | src/modules/payouts/payouts.service.ts:688-718 | Over every stream of deliveries, an event is applied twice if and only if at some point it was marked FAILED after having been applied and was later applied again |
| WebhookInbox.AppliedTwice | src/modules/payouts/payouts.service.ts:699-717 | A run in which that happens: marking PROCESSED fails after the effects, the catch marks FAILED, and the next delivery applies the event again |
| WebhookInbox.OnceUnlessReopened | src/modules/payouts/repositories/payouts.repository.ts:924-992 | Without such a reopening an event is applied at most once |
| InboxRules.EventIsRight | src/modules/payouts/repositories/payouts.repository.ts:924-992 | An event becomes RECEIVED only when it is new or FAILED, and PROCESSED or FAILED only from RECEIVED by a handler of it |
| InboxRules.HandlerIsRight | src/modules/payouts/payouts.service.ts:660-718 | A handler gets its event by an accepted delivery and keeps it until it marks the event or stops |
| InboxRules.EffectIsRight | src/modules/payouts/payouts.service.ts:688-698 | Only the first `apply` of a handler brings the effects about, once |
| InboxRules.EveryEventHasItsReason | src/modules/payouts/payouts.service.ts:660-718 | Over every run each stored event was delivered, and each processed one was marked by a handler that had brought its effects about before |
| WebhookInbox.NeverAppliedAgainExactlyWhenShut | src/modules/payouts/repositories/payouts.repository.ts:948-962 | No continuation ever applies the event again if and only if it is PROCESSED, or RECEIVED with no handler still to apply it |
| WebhookInbox.LostExactlyWhenStoppedBeforeApplying | src/modules/payouts/repositories/payouts.repository.ts:948-962 | An event never applied can never be applied any more if and only if it is RECEIVED with no handler holding it |
| WebhookInbox.TheTwoStops | src/modules/payouts/payouts.service.ts:688-718 | From the empty inbox: a handler that stops before applying loses the event, one that stops after applying loses nothing |
| RefreshTokens.EveryInterleaving | src/modules/auth/auth.service.ts:176-308 | For every interleaving of logins, refreshes, revocations and replays: a session's tokens form one chain, at most one of its chained tokens is unrevoked, and no token is exchanged twice |
| RefreshTokens.OneLiveToken | src/modules/auth/repositories/auth.repository.ts:287-323 | Two live tokens of one chain are the same token |
| SessionRules.DecisionIsRight | src/modules/player-auth/player-auth.service.ts:310-387 | A refresh goes on to the exchange if and only if the token is live and unexpired, its session active, the claims match and the account is good; what happens otherwise is stated |
| SessionRules.RevokeIsRight | src/modules/auth/repositories/auth.repository.ts:193-206 | Ending a session ends exactly that session, and for admins its tokens |
| SessionRules.LogoutAllIsRight | src/modules/auth/auth.service.ts:317-324 | Logging out everywhere else ends exactly the user's other sessions |
| SessionRules.RequestsGoOn | src/modules/auth/auth.service.ts:176-308 | What each step does to a request; the token an exchange gives out belongs to the same session |
| SessionRules.EveryExchangeWasChecked | src/modules/auth/auth.service.ts:176-308 | Over every interleaving each exchanged token was presented before while it was live and unexpired, with matching claims, a good account and an active session |
| RefreshTokens.OverForever | src/modules/auth/auth.service.ts:237-301 | Once a session is over, no later step grants it anything |
| RefreshTokens.AdminReplayKillsSession | src/modules/auth/repositories/auth.repository.ts:193-206 | After an admin session is ended for a replay no refresh of it ever succeeds, in-flight ones included |
| RefreshTokens.ReplayIsNoticed | src/modules/auth/auth.service.ts:199-235 | A revoked token presented again changes nothing within the grace window of a rotation; otherwise, once the end of its session is carried out, after whatever steps lie between, the session is never granted anything again, for admins always and for players if and only if no refresh is in flight at that moment |
| RefreshTokens.PlayerSessionIsOverExactlyWhenNothingInFlight | src/modules/player-auth/repositories/player-auth.repository.ts:401-406 | Revoking a player session, which leaves its tokens alone, means that no continuation ever grants it anything if and only if no refresh of it is in flight |
| RefreshTokens.EndedForGoodExactlyWhenNothingInFlight | src/modules/auth/auth.service.ts:237-301 | The same for every ended session of either kind: never granted again over all continuations, if and only if nothing is in flight |
| RefreshTokens.WinnerCanExchange | src/modules/player-auth/repositories/player-auth.repository.ts:375-406 | A refresh holding the live token of a session completes and is granted, ended session or not |
| RefreshTokens.PlayerRefreshSurvivesReplay | src/modules/player-auth/repositories/player-auth.repository.ts:375-406 | An in-flight player refresh can still win after the session was revoked |
| RefreshTokens.AtMostOneSurvivor | src/modules/player-auth/player-auth.service.ts:310-387 | A revoked player session sees at most one further success, after which it is over |
| RefreshTokens.TokenStore.Login | src/modules/auth/auth.service.ts:83-172 | Opens a session with the first token of its chain |
| RefreshTokens.TokenStore.RotateRefreshToken | src/modules/auth/repositories/auth.repository.ts:293-323 | The compare-and-set on a null `revokedAt` lets one caller rotate and keeps the chain |
| RefreshTokens.TokenStore.RevokeSession | src/modules/auth/repositories/auth.repository.ts:193-206 | Revokes the session, and for admins all of its tokens |
| RefreshTokens.TokenStore.Refresh | src/modules/player-auth/player-auth.service.ts:310-387 | Grants exactly when the decision is to proceed, rotating; otherwise refuses or ends the session |
| Sanitizer.OutputIsSafe | src/common/audit/metadata-sanitizer.util.ts:47-119 | On every heap graph, cyclic or not, the output has no denied key at any depth and is at most the maximum depth deep |
| MetadataRules.DeniedExactly | src/common/audit/metadata-sanitizer.util.ts:15-45 | A key is denied if and only if it is one of the eleven listed words in whatever case |
| MetadataRules.NoSecretIsStored | src/common/audit/metadata-sanitizer.util.ts:127-144 | Whatever is handed in, what is stored has none of the eleven words as a key at any depth, and at most eight levels |
| MetadataRules.ValueIsStored | src/common/audit/metadata-sanitizer.util.ts:47-119 | What each kind of value is stored as; of a record exactly the properties that are not denied and have something to store, in their order |
| MetadataRules.NothingIsStoredExactlyWhen | src/common/audit/metadata-sanitizer.util.ts:127-144 | Nothing is stored if and only if the value is absent or an object of which nothing is left |
| Sanitizer.SharingIsHarmless | src/common/audit/metadata-sanitizer.util.ts:47-119 | On acyclic graphs, shared or not, the result is that of the plain unfolding without a `seen` set |
| Sanitizer.BackReferenceIsCut | src/common/audit/metadata-sanitizer.util.ts:82-86 | On every graph, a property that leads back to an object on the path, its own object included, comes out as `[circular]`, or as `[truncated]` at the depth limit |
| Sanitizer.CleanIsFixed | src/common/audit/metadata-sanitizer.util.ts:47-119 | A tree that is already clean and within depth comes back unchanged |
| Sanitizer.SanitizingTwiceIsOnce | src/common/audit/metadata-sanitizer.util.ts:127-144 | Sanitising any stored copy of the output gives the output again |
| Sanitizer.Visitor.Visit | src/common/audit/metadata-sanitizer.util.ts:47-119 | The traversal that adds to and deletes from `seen` computes the specified result, terminates on every graph and leaves `seen` as it found it |
| Sanitizer.ComputeDiff | src/common/audit/compute-diff.util.ts:34-62 | Lists exactly the keys of `after` whose sanitised value differs, holds no denied key, and is empty for equal records |
| Sku.DisambiguateSku | src/modules/merchandise/sku.util.ts:70-89 | Returns the first free candidate, fails exactly when all 999 are taken, and never while fewer than 999 SKUs are taken |
| Sku.CandidatesDiffer | src/modules/merchandise/sku.util.ts:70-89 | The candidates are pairwise different |
| Sku.CandidateCount | src/modules/merchandise/sku.util.ts:70-89 | n candidates are n different strings |
| Sku.GenerateSku | src/modules/merchandise/sku.util.ts:36-60 | A generated SKU has only capital letters, digits and dashes |
| Sku.GeneratedReads | src/modules/merchandise/sku.util.ts:36-60 | A generated SKU is `MERCH-`, the id part, and size and colour with a dash where something is left of them |
| Sku.IdReads | src/modules/merchandise/sku.util.ts:41-44 | The id part is the first four letters or digits of the id, or all of them, in capitals |
| Sku.SlugReads | src/modules/merchandise/sku.util.ts:16-21 | A segment is the letters and digits of the text in capitals |
| Sku.KeepsLettersAndDigits | src/modules/merchandise/sku.util.ts:16-21 | Exactly the letters and digits are kept, in order |
| Sku.CandidateReads | src/modules/merchandise/sku.util.ts:70-89 | The candidates are the base itself and the base with a dash and the decimal numeral of 2, 3 and so on |
| Sku.ResolveVariants | src/modules/merchandise/merchandise.service.ts:341-378 | One row per input in order, SKUs pairwise distinct and none already taken; a named variant keeps its own, an unnamed one gets the first free candidate of its generated SKU; each refusal is of the first variant that fails and its reason holds, and none is for lack of candidates while existing and submitted together stay below 1000 |
| Shipments.EveryRun | src/modules/shipments/shipments.module.ts:263-402 | Over every run of admin and player creations, updates and cancellations: stock plus uncancelled shipments of each variant is constant, stock is never negative, purchases and refunds match their rows, shippedAt and deliveredAt never move once set |
| Shipments.FromTheFirstShipment | src/modules/shipments/shipments.module.ts:263-402 | From before the first shipment, over every run: what the shelf held is on the shelf or in an uncancelled shipment, and purchases and refunds net to the cost of the claims that stand |
| Shipments.StepKeeps | src/modules/shipments/shipments.module.ts:263-402 | Each single operation keeps that, refused or not |
| Shipments.RefundedExactlyOnce | src/modules/shipments/shipments.module.ts:370-392 | A purchased shipment has exactly one refund row, for its cost, if it is cancelled and none otherwise |
| Shipments.CancelKeeps | src/modules/shipments/shipments.module.ts:370-392 | Cancelling a pending shipment is refused exactly when a refund is due to an overdrawn wallet, and otherwise pays the cost back |
| ShipmentRules.AdminCreateIsRight | src/modules/shipments/shipments.module.ts:263-335 | An administrator's shipment goes through if and only if it is eligible and a piece is in stock, takes one piece and no money |
| ShipmentRules.ClaimIsRight | src/modules/player-merchandise/repositories/player-merchandise.repository.ts:82-178 | What a claim needs, writes and is refused for: one piece, one debit of the cost, one pending shipment that points at its debit |
| ShipmentRules.UpdateIsRight | src/modules/shipments/shipments.module.ts:337-402 | A status update goes through if and only if it repeats the status or is one of the three moves, and a refund it causes fits; what changes is stated |
| ShipmentRules.CancelOwnedIsRight | src/modules/player-merchandise/repositories/player-merchandise.repository.ts:180-217 | Only the owner cancels, only while pending; a claim is paid back and the piece returns |
| ShipmentRules.EveryShipmentHasItsReason | src/modules/shipments/shipments.module.ts:263-402 | Over every run each shipment was made by an administrator or claimed by its own player for its cost, and was sent, delivered and cancelled by the operations and at the times it carries |
| Shipments.ClaimGoesThroughExactlyWhen | src/modules/player-merchandise/repositories/player-merchandise.repository.ts:82-178 | A claim goes through if and only if it repeats a request of the player or the cost is positive, the player eligible and covered and the variant in stock; a repeat changes nothing, a new one takes one piece and the cost |
| Shipments.ShipmentTables.CreateByAdmin | src/modules/shipments/shipments.module.ts:263-335 | Reserves one item or refuses |
| Shipments.ShipmentTables.ClaimByPlayer | src/modules/player-merchandise/repositories/player-merchandise.repository.ts:82-178 | Reserves, debits and creates once per request id, or rolls back |
| Shipments.ShipmentTables.UpdateStatus | src/modules/shipments/shipments.module.ts:337-402 | Moves along the status table only, with restock and refund on cancellation |
| Shipments.ShipmentTables.CancelByOwner | src/modules/player-merchandise/repositories/player-merchandise.repository.ts:180-217 | Cancels the owner's pending shipment, with the same effects |
| Refunds.FeesNetToZero | src/modules/tournaments/repositories/tournaments.repository.ts:810-850 | After a cancellation every entry fee and the row under its refund reference net to zero, given earlier refunds were full |
| Refunds.EveryPlayerIsPaidBack | src/modules/tournaments/repositories/tournaments.repository.ts:820-849 | After a cancellation each player's fees under `entry_fee:` and their refunds sum to zero, given earlier refunds were full |
| Refunds.EveryWrittenFeeIsRefunded | src/modules/tournaments/repositories/tournaments.repository.ts:205-212 | Every fee written under `entry_fee:tournament:user` with or without an attempt number has a full refund row after a cancellation, and each player's fees and refunds sum to zero |
| Refunds.RefundingAgainChangesNothing | src/modules/tournaments/tournament-progression.service.ts:870-920 | Running the refund loop again over any part of the fees adds no row |
| Refunds.CancelsExactlyWhenNobodyOverdrawn | src/modules/tournaments/repositories/tournaments.repository.ts:833-849 | The cancellation goes through if and only if nobody still due a refund is overdrawn |
| Refunds.ForeignFeesAreForgotten | src/modules/tournaments/repositories/tournaments.repository.ts:820-831 | A fee under any other reference, which no code writes, would be passed over as if it were not there |
| Refunds.OnlyRefundsAreWritten | src/modules/tournaments/repositories/tournaments.repository.ts:820-849 | Every row a cancellation writes is a refund of one of the fees: the same player, the whole amount, `refund:` where the fee says `entry_fee:` |
| Refunds.EachFeeIsPaidBackOnce | src/modules/tournaments/repositories/tournaments.repository.ts:820-849 | After a cancellation exactly one row stands under the refund reference of each `entry_fee:` fee, and it pays that fee back |
| Refunds.RefundEntryFees | src/modules/tournaments/tournament-progression.service.ts:870-920 | The loop refunds all fees or none |
| Backfill.BackfillReconciles | prisma/seed/backfill-transactions.ts:97-187 | A user without rows gets a contiguous chain that sums to the untouched balance and never runs below it; other users are left alone |
| Backfill.EveryFeeIsWritten | prisma/seed/backfill-transactions.ts:111-186 | A user who had no rows gets one entry-fee row per fee, in order and for its amount, after an opening row exactly when balance and fees do not cancel out |
| Backfill.SecondRunWritesNothing | prisma/seed/backfill-transactions.ts:100-109 | A second run writes nothing |
| Backfill.EveryHistoryFits | prisma/seed/backfill-transactions.ts:111-186 | The written references are unique among themselves and against the existing rows |
| Backfill.BackfillTransactions | prisma/seed/backfill-transactions.ts:82-190 | The loop writes exactly those histories, and its summary counts the users skipped, the opening rows and the fee rows |
| Backfill.ReportIntegrity | prisma/seed/backfill-transactions.ts:196-219 | Counts exactly the users whose balance is not the plain sum of their rows |
| Backfill.ChecksAgreeExactly | prisma/seed/backfill-transactions.ts:196-219 | The script and the service's check agree on a user exactly when the rows outside the balance sum to zero |

## Left out

- Payouts.EveryInterleaving: Stripe is taken to remember an idempotency key for ever; the real keys expire.
- Payouts.TransferEventsTakeEffectOnce: the effects of account, deposit and other events are not modelled, nor are activity records.
- LogFidelity.ReportIsTrue: where a timeout bid or played, which hands are still read right is LogFidelity.HandIsReadRight.
- LogFidelity.LogTracksEngine: the forfeit event that a disqualification appends to a log is not in the runs it speaks of.
- Withdrawals.EveryRun: identity checks, disputes and destinations of a request are one parameter; a repeated request id with another payload is turned away before the transaction.
- LogFidelity.HandIsReadRight: says nothing of a hand in which a timeout played a card, or of the hand after one ended by a timeout; such a hand can still be read right by chance.
- Bracket.FinalStandings: only for uncorrected brackets, because a correction does not reset placements; Standings.CorrectionMovesFirstPlace says what a correction does.
- Matchmaking.ChallengeTables.BlockPlayer: the deletion of a friendship between the two is not modelled.
- TournamentProgression.Service.Start: the refunds of a cancelled field are modelled in Refunds, and the registrations set to WITHDRAWN are not.
- Leaderboard.RatingIsConserved: ratings are integers and the expected score is any function into [0, 1]; the floating-point logistic formula is not modelled.
- Leaderboard.PercentileInRange: the percentile is the exact ceiling of rank * 100 / n; the code divides in floating point first, so rank 7 of 100 shows 8 there and 7 here.
- Leaderboard.OneListing: names are compared through an order-giving function into integers instead of `localeCompare`.
- Matchmaking.ChallengeTables.CreateChallenge: its checks before the lock, and the whole of ResolveChallenge, are taken as part of the atomic step.
- Sanitizer.SanitizingTwiceIsOnce: `toJSON` is a stored value, object keys are distinct, and map-like objects without own keys are not modelled.
- Sanitizer.ComputeDiff: equality of stringified values is structural equality of the trees.
- Sku.GenerateSku: case conversion is ASCII only.
- Disputes.EveryRun: cases on other tournaments are carried out elsewhere and change nothing here; how a case comes to be filed or appealed is not in the code, so any filing is allowed.
- Identifiers are natural numbers in database order, and references are values of a datatype, except in Refunds and Sku where the strings are the point.
- `submitResults`, which writes results of tournaments without a bracket; deposits; registration and its fee debit.
- The check `registrations.length !== 2` in `settle`: the two-per-team invariant makes it unreachable.
- Start of a leaderboard period: the calendar is a parameter, the start as an optional timestamp.
- Pruning of expired tokens; cryptography, hashing and JWT verification, which are a parameter of a refresh.
- Admin edits of stock outside shipments.
- Controllers, settings, permissions, dashboards, pagination arithmetic, CSV, e-mail, images and lessons: they would only add easy members.
