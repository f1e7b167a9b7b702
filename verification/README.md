# InverseArena: the money paths, modelled and proved

InverseArena is an elimination game played for a pool of entry fees that earn yield while the game runs. This
project models the parts that hold and move money, and proves what they promise over all inputs and all runs:

- **The arena**, with its yield vault and the stake token: players join, commit to a coin side, reveal it, and the
  minority survives, round after round. A game ends in a prize, in an expiry that refunds the survivors, or in a
  cancellation after which everyone can claim a refund. The model is one state of arena, vault and ledger; its runs
  mix all entry points of the arena with calls by anybody else to the vault and the token.
- **The staking pool**: shares minted and burnt pro rata in floor arithmetic, with rewards injected in between.
- **The payout contract**: single and batch payouts, each id once, over a token that may call back into it at any
  depth. The model is the tree of nested calls, with rollback.
- **The payment pipeline**: payout records created, sent, confirmed, retried and given up by service, worker and
  reconciler over the in-memory repository, behind a circuit breaker, with exact conversion of decimal amounts.

Each component has a specification on plain values (`*Model`, `StakingPool`, `RwaVault`), a class that does the same
in place (`*Contract`, `PaymentService`, `PaymentWorker`, `CircuitBreaker`) and is proved to compute the
specification, and theorems about the specification (`*Proofs`, `PaymentCreation`, `PaymentContents`, `PaymentKeys`,
`PaymentNode`, `PaymentPayout`; for the arena `ArenaRounds` to `ArenaPrize`, `ArenaRankings`, `ArenaRefusals`, `ArenaAdmin` and `ArenaDeadEnds`, with
`ArenaStories` for concrete runs).
`ArenaRuns.Sound` gathers what holds of the arena between any two calls.

Nine results are about what the code does not promise, each with its exact condition:

- An idempotency key can end up with two records: creation waits for the node between looking the key up and inserting
  the record (`KeysStayUniqueIff`, `OverlappingRequestsShareKey`).
- A failed probe does not always reopen the breaker when calls overlap (`FailedProbeReopensIff`,
  `HalfOpenAfterFailedProbe`).
- Retries end exactly if `failedRetryMax` does not exceed `maxAttempts`, as in the defaults (`PayoutsComeToRestIff`,
  `RetriesCanGoOn`).
- A round can be settled from the very moment reveals are accepted; no time is set aside for revealing, and whoever
  is not heard goes out (`SettlingOpensWithReveals`, `UnheardPlayersGoOut`, `CommittedButUnheard`).
- If nobody reveals in a round, the game ends without a winner, and the entry fees stay where they are
  (`RoundStrandsIff`, `StrandedForGood`, `CommittedButUnheard`).
- A prize is paid out of the vault's own account, to which joining adds nothing. A winner can be paid nothing, and the
  entry fees stay with the settled arena (`ClaimPaysWhatIsOwed`, `SettledKeepsTheFees`, `WonButPaidNothing`).
- Rounds need not end a game: two players who are always heard are never parted (`RoundEliminatesIff`,
  `TwoHeardPlayersNeverPart`), and a round without a duration leaves no winner to come (`NoTimeNoWinner`).
- A stake burnt at once can be a profit, exactly if the pool holds rewards but no shares (`StakeThenUnstake`).
- Signed payouts can share a payout id, which is not compared, and then only one of them is ever paid
  (`OnlyAuthorisedFormsQueue`, `OnePaidPerSignedId`).

Where code and documentation differ, the model follows the code: players may join whenever the arena is open,
between rounds too; `start_round` does not check the documented bounds on a round's duration; `cancel_arena` does not push
refunds; `claim_refund` ignores the pause flag once the arena is cancelled; `reveal_choice` does not look at the
lifecycle state; the vault's `deposit` records a position and moves no tokens.

## Model

| member | source | states |
|---|---|---|
| `ArenaRuns.FreshRunsAreSound` | contract/arena/src/lib.rs:85-903 | from an initialised arena, after any sequence of authorised calls to arena, vault and token with a clock that never goes back, every invariant below holds together |
| `ArenaRuns.StepKeepsSound` | contract/arena/src/lib.rs:260-919 | each single call keeps all of them: roster, phase, accounts, vault position, cover for refunds, booked yield, sealed ballots |
| `ArenaInvariants.StepKeepsRoster` | contract/arena/src/storage.rs:108-129 | the player list has no duplicates and matches the stored player states and the counter; at most 100 players; rounds survived never exceed rounds played; only players are refunded |
| `ArenaInvariants.StepKeepsPhase` | contract/arena/src/lib.rs:653-667 | the prize is claimed exactly when the arena is settled; a recorded winner means the game is over and they are the only active player; refunds exist only in a cancelled arena; an arena reopened between rounds, or running, has at least two active players |
| `ArenaAccounts.StepFollowsLifecycle` | contract/arena/src/state_machine.rs:25-36 | each change of lifecycle state is made by the one entry point meant for it and is a legal transition |
| `ArenaAccounts.ExitsAreFinal` | contract/arena/src/state_machine.rs:25-36 | a cancelled or settled arena stays that over every run |
| `ArenaAccounts.StepKeepsAccounts` | contract/arena/src/lib.rs:633-663 | over every run whose round counter has not hit its ceiling: eliminations of the stored rounds plus active players make up everyone who joined; cumulative yield is the sum of the snapshots, up to saturation; every round has its own result and snapshot |
| `ArenaFunds.StepKeepsInvested` | contract/arena/src/lib.rs:286-304 | while in play, the vault position is open and its principal is exactly the entry fee times the player count |
| `ArenaFunds.StepKeepsCovered` | contract/arena/src/lib.rs:411-484 | until settlement or expiry the token account of the arena covers the entry fee of every player not yet refunded, whatever the vault does |
| `ArenaFunds.FailureChangesNothing` | contract/arena/src/lib.rs:260-919 | a call that returns an error or traps leaves arena, vault and ledger as they were |
| `ArenaFunds.WithdrawalPays` | contract/rwa-adapter/src/lib.rs:59-119 | a withdrawal pays what is owed as far as the vault's account reaches, from that account to the owner, closes that position and touches no other |
| `ArenaFunds.JoinPassesIff` | contract/arena/src/lib.rs:260-309 | exactly when a join passes across arena, token and vault, and that it then moves one entry fee and raises the position by it |
| `ArenaFunds.PauseStopsTheGame` | contract/arena/src/lib.rs:830-919 | what can still change a paused arena: a forced cancellation, a refund from a cancelled arena, an administrator's setting; nothing else |
| `ArenaRefusals.RefusalsHaveGrounds` | contract/arena/src/lib.rs:260-919 | every refusal says what is the matter: a pause is the answer exactly to the calls it stops; any other error is given only where what it names is so; only calls that touch tokens can trap |
| `ArenaFunds.OutOfPlayStays` | contract/arena/src/lib.rs:449-484 | a game out of play never comes back into play, and one finished without a winner stays finished |
| `ArenaYield.StepKeepsBooked` | contract/arena/src/lib.rs:619-642 | the yield booked round by round never exceeds the yield on the current principal at the current time, and a running round started from the exact worth of the position |
| `ArenaYield.ResolveKeepsBooked` | contract/arena/src/lib.rs:619-637 | where the products fit, a round accrues exactly the growth of the floor yield since its start, and the cumulative yield rises by exactly that, without saturating; so the rounds telescope and stay within the yield to date |
| `RwaVault.YieldMono` | contract/rwa-adapter/src/lib.rs:122-143 | floor-rounded yield grows with principal and with time |
| `RwaVault.FitsEarlier` | contract/rwa-adapter/src/lib.rs:122-143 | if the vault's products fit in an i128 for some principal and time, they fit for any smaller principal at any earlier time |
| `RwaVault.FittingBalance` | contract/rwa-adapter/src/lib.rs:59-143 | where the products fit, the balance read and the amount owed agree: principal plus floor yield |
| `RwaVault.SmallFeesFit` | contract/rwa-adapter/src/lib.rs:59-143 | entry fees up to 2^60, 100 players and any 64-bit clock never overflow the vault |
| `RwaVault.FivePercentAYear` | contract/rwa-adapter/src/lib.rs:4-5 | the rate is five percent: n years yield n twentieths of the principal, in whole tokens a year, and in between in proportion to the seconds |
| `RwaVault.DepositPassesIff` | contract/rwa-adapter/src/lib.rs:37-56 | when a deposit passes, and that it raises the total on the books and the owner's position by the amount and leaves everyone else's |
| `RwaVault.WithdrawalClearsBooks` | contract/rwa-adapter/src/lib.rs:59-119 | a withdrawal takes exactly the owner's principal off the total on the books, whatever it pays |
| `RwaVault.WithdrawnStaysShut` | contract/rwa-adapter/src/lib.rs:59-80 | a position once withdrawn never pays again, even after a further deposit |
| `RwaVault.OverflowFallbacks` | contract/rwa-adapter/src/lib.rs:59-143 | what the balance reads and what a withdrawal owes in each case where a product or the sum does not fit |
| `RwaVault.RefusalsHaveGrounds` | contract/rwa-adapter/src/lib.rs:37-80 | which error the vault gives, for a deposit and for a withdrawal |
| `ArenaPrize.VaultOwesThePrize` | contract/arena/src/lib.rs:734-742 | at claim time the open position is worth at least principal plus the booked yield of all rounds |
| `ArenaPrize.PrizeIsExact` | contract/arena/src/lib.rs:706-755 | the recorded winner's claim passes unless paused, settles the arena and closes the position; it pays principal plus all booked yield, and the full amount exactly when the vault's token account holds it; nobody else's account below the two contracts changes |
| `ArenaPrize.SmallFeesAlwaysPay` | contract/arena/src/lib.rs:706-755 | the same with a checkable bound on the entry fee in place of the overflow condition |
| `ArenaPrize.FundedPrizeIsPaidInFull` | contract/arena/src/lib.rs:733-750 | a prize the vault's account covers is paid in full after any run without a withdrawal from the vault or a pause |
| `ArenaPrize.WithdrawalCompetes` | contract/rwa-adapter/src/lib.rs:59-119 | after a withdrawal by somebody else the prize is paid in full exactly if the vault's account held enough for both |
| `ArenaPrize.ClaimPaysWhatIsOwed` | contract/arena/src/lib.rs:706-755 | every claim by the winner, whatever overflows: when it passes, and that it pays the least of principal plus booked yield, what the vault owes, and what the vault's account holds; or, where the vault owes nothing it can compute, the whole prize from the arena's own account |
| `ArenaPrize.PrizeWithoutTheVault` | contract/arena/src/lib.rs:734-750 | the fallback to the arena's own account is taken exactly when the vault cannot compute the amount, and then passes exactly if the account covers the prize |
| `ArenaPrize.PaidAtMostOnce` | contract/arena/src/lib.rs:449-484 | over any run the prize, the expiry refunds and each player's refund are paid at most once |
| `ArenaPrize.OneWayOfPaying` | contract/arena/src/lib.rs:706-919 | no run pays in two of the three ways |
| `ArenaPrize.RoundStrandsIff` | contract/arena/src/lib.rs:653-663 | settling a round ends the game without a winner exactly if no active player revealed |
| `ArenaPrize.StrandedForGood` | contract/arena/src/lib.rs:653-667 | a game that ends in a round nobody revealed in has no winner in any later state, and all its entry fees stay in the arena's account |
| `ArenaPrize.NothingLeavesAfterwards` | contract/arena/src/lib.rs:706-919 | once settled, or finished without a winner, no call of any run lowers the arena's account |
| `ArenaPrize.SettledKeepsTheFees` | contract/arena/src/lib.rs:733-750 | after a claim paid through the vault every entry fee stays in the arena's account, in every later state |
| `ArenaPrize.ExpiryKeepsTheRest` | contract/arena/src/lib.rs:449-484 | after an expiry the fees of the players eliminated before it stay in the arena's account, in every later state |
| `ArenaStories.CommittedButUnheard` | contract/arena/src/lib.rs:600-682 | a run from a new arena in which a committed player is eliminated unheard, the game strands, and both fees stay behind |
| `ArenaStories.WonButPaidNothing` | contract/arena/src/lib.rs:706-755 | a run from a new arena in which the winner's claim passes and settles it, and pays nothing: the vault's own account is empty |
| `ArenaRefunds.RefundIsDue` | contract/arena/src/lib.rs:890-919 | in every reachable cancelled arena a refund claim passes exactly for a listed player not yet refunded, and moves exactly one entry fee |
| `ArenaRefunds.RefundsInAnyOrder` | contract/arena/src/lib.rs:890-919 | players may claim in any order: each gets one fee and the arena pays no more than that |
| `ArenaRefunds.RefundsNeverLapse` | contract/arena/src/lib.rs:890-919 | whatever is called after a cancellation, a player not yet refunded can still claim, and one already refunded cannot |
| `ArenaRefunds.CancelPassesIff` | contract/arena/src/lib.rs:411-437 | when an admin's cancellation passes, in terms of state, pause, players and what the vault can compute |
| `ArenaRefunds.ForceCancelPassesIff` | contract/arena/src/lib.rs:860-887 | a forced cancellation passes exactly while the game is not over, paused or not, whatever the vault does |
| `ArenaRefunds.CancellationPays` | contract/arena/src/lib.rs:411-437 | what a cancellation leaves, forced or not: the position closed and the arena's account up by what is owed as far as the vault's account reaches; or, where nobody joined or the vault refuses, vault and accounts as they were |
| `ArenaRefunds.VaultAnswers` | contract/rwa-adapter/src/lib.rs:59-119 | a withdrawal by an arena in play succeeds exactly when its checked products and sums fit |
| `ArenaRefunds.RefundActivePays` | contract/arena/src/lib.rs:471-480 | the expiry loop pays one fee to each active player and never runs short when the account covers them |
| `ArenaRefunds.ExpiryRefundsSurvivors` | contract/arena/src/lib.rs:449-484 | when expiry passes, and that it returns one entry fee to exactly the active players, is always funded, leaves no winner, and leaves the arena what the vault paid in and the other fees |
| `ArenaCommitments.CommitmentBinds` | contract/arena/src/lib.rs:972-980 | two openings of one commitment are the same choice and salt |
| `ArenaCommitments.StepKeepsSealed` | contract/arena/src/lib.rs:324-399 | commitments and choices belong to the coming round and to listed players; each choice is bound by its commitment; none exists before the deadline, and none at all while the arena is open |
| `ArenaCommitments.StartClearsNothing` | contract/arena/src/lib.rs:555-558 | clearing at the start of a round never removes anything in a reachable state |
| `ArenaCommitments.SettlingClearsAll` | contract/arena/src/lib.rs:676-678 | settling a round leaves no commitment and no choice behind |
| `ArenaReveals.StoredIsLastCommitted` | contract/arena/src/lib.rs:324-347 | a stored commitment is the last one its player made for the round, made before the deadline |
| `ArenaReveals.StoredChoiceWasCommitted` | contract/arena/src/lib.rs:369-399 | every stored choice was committed to before the deadline, revealed after it with the salt that opens the commitment, and never recommitted |
| `ArenaReveals.RevealsFreezeBallots` | contract/arena/src/lib.rs:324-399 | once anyone has revealed, no call changes a commitment or a revealed choice except settling the round, which clears them all |
| `ArenaReveals.SettlingOpensWithReveals` | contract/arena/src/lib.rs:607-617 | in an unpaused running round, settling passes exactly from the commit deadline on, the same moment reveals start to |
| `ArenaReveals.UnheardPlayersGoOut` | contract/arena/src/lib.rs:1019-1034 | from then on settling passes and eliminates every active player whose choice is not stored, committed or not |
| `ArenaAccounts.EliminationIsFinal` | contract/arena/src/lib.rs:999-1034 | over every run an eliminated player stays so, keeps the rounds survived, and can neither commit nor reveal |
| `ArenaReveals.CommittedChoiceCanBeRevealed` | contract/arena/src/lib.rs:369-399 | whatever others do meanwhile, short of a pause or settling the round, a committed choice can be revealed after the deadline, and no other |
| `ArenaReveals.StartPassesIff` | contract/arena/src/lib.rs:535-585 | a round starts exactly in an open, unpaused arena with as many active players as configured, and changes only the clock of the round, the state and the yield baseline |
| `ArenaReveals.CommitmentAwaitsReveal` | contract/arena/src/lib.rs:324-347 | a commitment that passes is stored for the coming round before the deadline and can be revealed from it on |
| `ArenaReveals.RevealCounts` | contract/arena/src/lib.rs:369-399 | a reveal that passes is a ballot of the round, and no second one passes |
| `ArenaRounds.WhoSurvives` | contract/arena/src/lib.rs:999-1034 | a listed player stays active exactly if active, revealed, and not on the strict majority of a split |
| `ArenaRounds.RoundOutcome` | contract/arena/src/lib.rs:999-1056 | survivors plus eliminated are the formerly active; none survive exactly if none revealed; a split keeps fewer than half of the ballots, a tie or unanimity all; a winner exactly if one is left, who survived |
| `ArenaRounds.RoundEliminatesIff` | contract/arena/src/lib.rs:999-1034 | a round eliminates somebody exactly if an active player did not reveal, or the ballots split unevenly |
| `ArenaDeadEnds.TwoHeardPlayersNeverPart` | contract/arena/src/lib.rs:600-682 | over every run in which nobody joins and two active players are heard in every round, both stay active, nobody wins and no claim passes |
| `ArenaDeadEnds.CommitmentsLastTheDuration` | contract/arena/src/lib.rs:535-585 | a started round takes an active player's commitment exactly until its duration is over |
| `ArenaDeadEnds.NoTimeNoWinner` | contract/arena/src/lib.rs:535-585 | a round started with no duration takes no commitment and can be settled at once; over every run from there the game has no winner and no claim passes |
| `ArenaDeadEnds.CancelledKeepsTheSurplus` | contract/arena/src/lib.rs:411-437 | after a cancellation what the arena's account holds beyond the fees still owed stays, over every run |
| `ArenaRounds.LeaderboardIsTopOfRanking` | contract/arena/src/lib.rs:1059-1097 | the leaderboard starts a full ranking of all players by rounds survived: best first, ties in join order, everyone once with their own count |
| `ArenaRankings.SurvivorsAreCredited` | contract/arena/src/lib.rs:999-1034 | in settling a round, a player who comes out active is credited with one more round survived, up to the counter's ceiling; nobody else's count changes |
| `ArenaRankings.ChoicesTakenBack` | contract/arena/src/lib.rs:1019-1034 | settling takes back exactly the choices of those who go out, and clearing exactly the listed players' choices and commitments of the round |
| `ArenaRankings.RoundsSurvivedAreRoundsComeOutOf` | contract/arena/src/lib.rs:999-1034 | over every run from a new arena, a player's count is the number of settled rounds they came out of active, up to the ceiling |
| `ArenaRankings.FinishingRanksTheFinalBoard` | contract/arena/src/lib.rs:653-660 | the leaderboard is drawn up exactly when settling finishes the game, from the players as that round leaves them and by the limit in force |
| `ArenaRankings.LeaderboardLimitGoverns` | contract/arena/src/lib.rs:927-932 | the leaderboard of a game just finished lists as many players as the limit configured last, or all if fewer |
| `ArenaRankings.FinalRankingStands` | contract/arena/src/lib.rs:653-660 | over every run a game that is over keeps its leaderboard and its players' counts |
| `ArenaRounds.PagesCoverPlayers` | contract/arena/src/storage.rs:85-99 | page after page lists every player once in join order |
| `ArenaRuns.RunConservesTokens` | contract/arena/src/lib.rs:260-919 | no run creates or destroys a token |
| `ArenaRuns.RunKeepsVaultBooks` | contract/rwa-adapter/src/lib.rs:37-119 | over every run of arena, vault and token the total on the vault's books is the sum of the open principals |
| `Eliminations.MinorityWins` | contract/arena/src/eliminations.rs:51-69 | a choice somebody made is eliminated exactly if the other side has votes, but fewer |
| `Eliminations.TallyChoices` | contract/arena/src/eliminations.rs:33-48 | the counting loop counts each side, and counts everyone |
| `StableSorting.FirstMaxLeads` | contract/arena/src/lib.rs:1080-1094 | taking the first of the best entries and sorting the rest gives the stable sort |
| `StableSorting.SortStable` | contract/arena/src/lib.rs:1059-1097 | equal entries keep their order |
| `ArenaContracts.ArenaContract.JoinArena` | contract/arena/src/lib.rs:260-309 | the entry point computes the specified join on arena, vault and ledger, with all three rolled back on failure |
| `ArenaContracts.ArenaContract.SubmitCommitment` | contract/arena/src/lib.rs:324-347 | stores the commitment for the coming round, under the same checks in the same order |
| `ArenaContracts.ArenaContract.RevealChoice` | contract/arena/src/lib.rs:369-399 | stores the choice if it opens the stored commitment, under the same checks in the same order |
| `ArenaContracts.ArenaContract.StartRound` | contract/arena/src/lib.rs:535-585 | counts the active players, clears, takes the vault baseline and opens the round |
| `ArenaContracts.ArenaContract.ResolveRound` | contract/arena/src/lib.rs:600-682 | books the yield, eliminates, records the result, closes or reopens, clears |
| `ArenaContracts.ArenaContract.Claim` | contract/arena/src/lib.rs:706-755 | marks before paying, withdraws, caps, pays; rolls everything back on a trap |
| `ArenaContracts.ArenaContract.CancelArena` | contract/arena/src/lib.rs:411-437 | cancels, and withdraws if anybody joined; rolls back if the vault refuses |
| `ArenaContracts.ArenaContract.ForceCancelArena` | contract/arena/src/lib.rs:860-887 | cancels whatever the vault answers |
| `ArenaContracts.ArenaContract.ExpireArena` | contract/arena/src/lib.rs:449-484 | finishes, withdraws, refunds the active players; all or nothing |
| `ArenaContracts.ArenaContract.ClaimRefund` | contract/arena/src/lib.rs:890-919 | marks and pays one refund; rolls back on a trap |
| `ArenaContracts.ArenaContract.GetPlayers` | contract/arena/src/lib.rs:493-502 | one page of players with their states |
| `ArenaContracts.ArenaContract.ConfigurePlayerLimits` | contract/arena/src/lib.rs:205-217 | limits are changed only within 2 to 100 and in order |
| `ArenaAdmins.AdminChangesOnlyByAccepting` | contract/arena/src/lib.rs:766-807 | no call but accepting changes the administrator, and that only to the one proposed; a proposal stands until the next one or until accepted |
| `ArenaAdmins.AcceptTakesTheLastProposal` | contract/arena/src/lib.rs:766-807 | after any run, accepting passes exactly if somebody is proposed and the arena unpaused; it hands over to the one proposed last, nobody having taken over since, and a second acceptance fails |
| `ArenaAdmins.InitializePassesIff` | contract/arena/src/lib.rs:85-146 | an arena is set up exactly with a positive fee and limits in order from 2 to 100, and then is open, empty and unpaused |
| `ArenaAdmins.LimitsGovern` | contract/arena/src/lib.rs:205-217 | limits are changed exactly within 2 to 100 and in order, and then keep a full arena shut and too small a game from starting |
| `ArenaAdmins.BansGovern` | contract/arena/src/lib.rs:222-238 | a ban keeps exactly the banned player out, and lifting it undoes it |
| `ArenaContracts.ArenaStorage.ResolvePlayers` | contract/arena/src/lib.rs:999-1056 | the two-pass loop that updates players and removes choices on the way computes the declared outcome, given that nobody is listed twice |
| `ArenaContracts.ArenaStorage.BuildLeaderboard` | contract/arena/src/lib.rs:1059-1097 | partial selection computes the leading entries of the stable sort |
| `ArenaContracts.ArenaStorage.ClearRoundData` | contract/arena/src/storage.rs:468-478 | the loop removes exactly the commitments and choices of the listed players for the round |
| `ArenaContracts.ArenaStorage.AddPlayer` | contract/arena/src/storage.rs:108-129 | appends the player, stores a fresh state and the new count |
| `ArenaContracts.ArenaStorage.LoadPlayerPage` | contract/arena/src/storage.rs:85-99 | a page is the slice of the player list it should be |
| `RwaVault.RwaAdapter.DepositFor` | contract/rwa-adapter/src/lib.rs:37-56 | adds to a position and the total; moves no tokens |
| `RwaVault.RwaAdapter.Withdraw` | contract/rwa-adapter/src/lib.rs:59-119 | pays a position out once, as far as the vault's account reaches |
| `RwaVault.RwaAdapter.ReadBalance` | contract/rwa-adapter/src/lib.rs:122-143 | the balance with its overflow fallbacks |
| `StakingProofs.StakingConservation` | contract/staking/src/lib.rs:194-330 | over every run from deployment: shares add up; staked tokens are the recorded amounts plus rewards; the token account is the staked total plus outside transfers; 0 <= S <= T |
| `StakingProofs.BooksBalance` | contract/staking/src/lib.rs:194-330 | the same as an invariant of every state |
| `StakingProofs.PriceNeverFalls` | contract/staking/src/lib.rs:202-321 | T'S >= TS' across every call |
| `StakingProofs.BystanderNeverLoses` | contract/staking/src/lib.rs:265-279 | no call by someone else lowers what a staker can redeem |
| `StakingProofs.HoldersNeverLose` | contract/staking/src/lib.rs:194-330 | the same over whole runs |
| `StakingProofs.ExitsPayThePrice` | contract/staking/src/lib.rs:252-296 | any sequence of exits succeeds exactly if each exit's own product and difference fit in an i128 when its turn comes, and leaves the price rounded up by less than one token an exit |
| `StakingProofs.SmallExitsFit` | contract/staking/src/lib.rs:273-286 | exits fit if their products fit in the pool as it stands and no recorded amount is too deep below zero |
| `StakingProofs.UnwindPaysExactlyThePool` | contract/staking/src/lib.rs:252-296 | burning every share, in any order and any pieces, succeeds exactly if each exit fits, and pays exactly the pool and empties it |
| `StakingProofs.SplittingNeverPays` | contract/staking/src/lib.rs:265-286 | whenever a single exit succeeds, so does any splitting of it, which pays at most as much and less than one token a piece below it |
| `StakingProofs.StakeThenUnstake` | contract/staking/src/lib.rs:205-286 | a stake burnt at once succeeds exactly if the burn fits; with shares outstanding it returns the stake less an exact, bounded rounding loss, into a pool without shares the stake and all the pool held; so it is a profit exactly if there were rewards but no shares |
| `StakingProofs.StakePassesIff` | contract/staking/src/lib.rs:194-250 | when a stake passes: in business, covered, worth at least 10 000 000 in an empty pool or a share in a live one, and fitting; the shares it mints, the tokens it moves, and everyone else left as they were |
| `StakingProofs.UnstakePassesIff` | contract/staking/src/lib.rs:252-296 | when an unstake passes: in business, as many shares held, and fitting; it pays the floor of their part of the pool from the pool's account |
| `StakingProofs.RewardsPassIff` | contract/staking/src/lib.rs:310-336 | when rewards pass, and that they raise the total by the amount and no position |
| `StakingProofs.PausingGoverns` | contract/staking/src/lib.rs:120-133 | a pause lasts until lifted and stops staking, unstaking and rewards; lifting it leaves the pool as it was |
| `StakingProofs.RefusalsHaveGrounds` | contract/staking/src/lib.rs:194-296 | which error a stake or an unstake is refused with |
| `StakingProofs.RecordedAmountsCanGoNegative` | contract/staking/src/lib.rs:279-286 | a concrete run after which a position's recorded amount is negative |
| `StakingContracts.StakingContract.Stake` | contract/staking/src/lib.rs:194-250 | the entry point computes the specified mint, field by field |
| `StakingContracts.StakingContract.Unstake` | contract/staking/src/lib.rs:252-296 | the entry point computes the specified burn, field by field |
| `StakingContracts.StakingContract.DistributeRewards` | contract/staking/src/lib.rs:310-336 | rewards raise the total without minting shares |
| `PayoutProofs.PaidExactlyOnce` | contract/payout/src/lib.rs:51-139 | with a token that may call back arbitrarily deep: each id takes effect at most once in the whole call tree, with positive amounts and no recipient twice; its events are exactly its lines, and every account receives exactly its lines |
| `PayoutProofs.ProperLinesCreditOnce` | contract/payout/src/lib.rs:103-139 | a payout with positive amounts and distinct recipients credits each recipient once, with the amount of their line |
| `PayoutProofs.CallTree` | contract/payout/src/lib.rs:51-139 | the effects of any call, nested ones included, are exactly a list of whole payouts, each proper, its own among them when it succeeds |
| `PayoutProofs.FailureChangesNothing` | contract/payout/src/lib.rs:51-139 | a failed call at any depth changes nothing |
| `PayoutProofs.TrapsUndo` | contract/payout/src/lib.rs:51-140 | a trap of the token in any transfer of a call, the last of a batch even, undoes the whole call |
| `PayoutProofs.RefusalsHaveGrounds` | contract/payout/src/lib.rs:51-140 | which error a payout or a batch is refused with, before the token is asked anything |
| `PayoutProofs.PaidStaysPaid` | contract/payout/src/lib.rs:142-144 | a paid id stays paid and refuses every later call |
| `PayoutProofs.ObjectionIffImproper` | contract/payout/src/lib.rs:103-123 | the batch scan passes exactly for positive amounts and distinct recipients, and its saturated total is the true total up to the ceiling |
| `PayoutProofs.QuietBatch` | contract/payout/src/lib.rs:87-139 | over an honest token a batch succeeds exactly if proper, unpaid, small enough and funded; below the i128 maximum, funded means that the balance covers the total |
| `PayoutProofs.QuietWinnings` | contract/payout/src/lib.rs:51-85 | over an honest token a single payout succeeds exactly if positive, unpaid and funded |
| `PayoutContracts.PayoutContract.DistributeBatch` | contract/payout/src/lib.rs:87-139 | the re-entrant method computes the specified call tree with rollback |
| `PayoutContracts.PayoutContract.DistributeWinnings` | contract/payout/src/lib.rs:51-85 | the re-entrant method computes the specified call tree with rollback |
| `PayoutContracts.PayoutContract.CheckLines` | contract/payout/src/lib.rs:103-123 | the loop that grows the seen list finds the first objection, or the saturated total |
| `Stroops.ToStroopsExact` | backend/src/services/paymentService.ts:50-61 | every accepted amount of any length converts to the digits of exactly ten million times its value, without leading zeros; it throws exactly for zero |
| `Stroops.SameStroopsSameAmount` | backend/src/services/paymentService.ts:50-61 | two spellings give the same stroops exactly if they denote the same number |
| `PaymentKeys.KeysStayUniqueIff` | backend/src/services/paymentService.ts:103-158 | creation waits between lookup, nonce, node and insert; under every interleaving each idempotency key has at most one record exactly if, of two creations under one key of which the second took off while the first was under way, not both landed |
| `PaymentKeys.OneRecordPerKey` | backend/src/services/paymentService.ts:103-115 | if no creation takes off while another under its key is under way, no two payouts ever share a key |
| `PaymentKeys.OverlappingRequestsShareKey` | backend/src/services/paymentService.ts:103-158 | two overlapping requests under one key, from an empty repository, end as two records for one payout, and the key leads to the later one only |
| `PaymentCreations.NoncesStayUnique` | backend/src/services/paymentService.ts:115-119 | under every interleaving no two payouts share a nonce of their source |
| `PaymentCreations.RunKeepsDesk` | backend/src/repositories/inMemoryTransactionRepository.ts:9-46 | under every interleaving the key index leads to records under their own keys, and no nonce is held twice, by records or creations under way |
| `PaymentCreations.CreationIsIdempotent` | backend/src/services/paymentService.ts:106-113 | once a creation under a key has finished and no other under it is under way, asking again changes nothing and returns that record, whatever happens in between |
| `PaymentCreations.CreateIsItsStretches` | backend/src/services/paymentService.ts:103-164 | a creation nothing comes between is its three stretches one after another |
| `PaymentContents.CreationStoresTheRequest` | backend/src/services/paymentService.ts:103-164 | a creation makes a record exactly if building succeeds and the amount is positive; the record pays the requested destination exactly the amount under the requested ids, with no attempt made, and is queued exactly where the service signs for itself |
| `PaymentContents.OthersChangeNothing` | backend/src/services/paymentService.ts:103-113 | a request that is malformed or whose key has a record changes nothing: an error, or that record |
| `PaymentContents.OrderOnlyGrows` | backend/src/repositories/inMemoryTransactionRepository.ts:26-55 | over every run records keep their place in the order of insertion, by which listings settle ties |
| `PaymentContents.EveryRecordHasItsOrigin` | backend/src/services/paymentService.ts:103-164 | under every interleaving each record goes back to a request of the run: created as requested, and since then made of its own steps only |
| `PaymentContents.EveryRecordPaysItsRequest` | backend/src/services/paymentService.ts:115-158 | so every record of any reachable repository still pays its own request |
| `PaymentContents.NoRecordExceedsAttempts` | backend/src/workers/paymentWorker.ts:127-188 | with a retry limit within the attempt limit, no record of any reachable repository has more attempts than allowed |
| `PaymentContents.ConfirmedRecordsArePaid` | backend/src/services/paymentService.ts:274-312 | every confirmed record of any reachable repository was found on chain by one of its status queries |
| `PaymentProofs.OnlyAuthorisedFormsQueue` | backend/src/services/paymentService.ts:336-394 | signing queues a waiting payout exactly with a form that calls the payout method once, for the record's own destination and amount; the payout id is not compared |
| `PaymentPayouts.OnePaidPerSignedId` | backend/src/services/paymentService.ts:336-394 | of two waiting payouts signed with one payout id both are queued, but once one is paid the other's call fails after any further calls of the payout contract |
| `PaymentPayouts.OwnIdsDoNotClash` | contract/payout/src/lib.rs:51-85 | signed with different ids, over an honest token, the second payout succeeds exactly if positive, its own id unpaid, and the balance left enough |
| `PaymentProofs.TerminalIsAbsorbing` | backend/src/services/paymentService.ts:185-312 | confirmed and dead payouts never change again |
| `PaymentProofs.ConfirmedIff` | backend/src/services/paymentService.ts:274-312 | a payout is confirmed exactly by a status query that finds it on chain while it is submitted under a hash |
| `PaymentProofs.QueryFailsIff` | backend/src/services/paymentService.ts:274-312 | a status query fails a submitted payout exactly if it finds it failed on chain; without an answer the payout is left as it is |
| `PaymentProofs.LastCheckLeavesNothingPending` | backend/src/workers/txReconciler.ts:13-50 | after the last confirmation job a submitted payout is confirmed, failed or given up, each exactly by what the chain answered |
| `PaymentProofs.ReplyDecides` | backend/src/services/paymentService.ts:185-272 | a queued payout is submitted exactly if it can be sent and the node accepts it, under the node's hash; it stays queued exactly if the circuit is open or the node asks to try again; otherwise it fails |
| `PaymentNode.SendingAsks` | backend/src/services/paymentService.ts:221-232 | a submission asks the node exactly if the form reads and the breaker lets it through, and only an answer that throws counts as a failure |
| `PaymentNode.QueryAsks` | backend/src/services/paymentService.ts:274-312 | a status query is answered exactly if the breaker lets it through, and only one that throws counts as a failure |
| `PaymentNode.PreparedIff` | backend/src/services/paymentService.ts:413-453 | exactly when building succeeds: breaker, both calls, amount, encoding and fee; the second call is never turned away; a bad amount or fee does not count as a failure |
| `PaymentProofs.ConfirmedWasFoundPaid` | backend/src/services/paymentService.ts:274-312 | over every life of a record, a confirmed payout was found on chain at a moment it was submitted under a hash |
| `PaymentProofs.AcceptedIsNotSentAgain` | backend/src/workers/paymentWorker.ts:127-188 | over every life of a record, once the node has accepted it, it is neither queued nor sent again unless a query finds it failed on chain |
| `PaymentProofs.WaitDoubles` | backend/src/workers/paymentWorker.ts:167-170 | the wait before a retry is the base delay up to the first attempt and doubles with each further one |
| `PaymentProofs.RetryPassesIff` | backend/src/workers/paymentWorker.ts:127-188 | a failed payout is re-queued exactly if signed, with attempts left, and its wait is over; given up exactly if unsigned or out of attempts; otherwise it waits unchanged |
| `PaymentProofs.ChangesAreStamped` | backend/src/services/paymentService.ts:185-312 | every change of a record is stamped with its time, from which the wait before a retry counts |
| `PaymentProofs.RunProjectsToRecord` | backend/src/workers/paymentWorker.ts:42-125 | in any run, whatever creations overlap, each record lives exactly the steps that concern it |
| `PaymentProofs.StepUsesPotential` | backend/src/workers/paymentWorker.ts:127-188 | with a retry limit within the attempt limit, every change of a record uses up some of a bounded potential |
| `PaymentProofs.RetriesAreBounded` | backend/src/workers/paymentWorker.ts:127-188 | sends <= attempts <= maxAttempts, re-queues within the retry limit, and at most 4 * maxAttempts + 6 changes |
| `PaymentProofs.RetriesCanGoOn` | backend/src/workers/paymentWorker.ts:127-188 | with a larger retry limit, failing and re-queueing can go on for as long as one likes |
| `PaymentProofs.PayoutsComeToRestIff` | backend/src/workers/paymentWorker.ts:127-188 | payouts come to rest within a fixed number of changes exactly if the retry limit is within the attempt limit or nothing is sent |
| `PaymentProofs.PassIsARun` | backend/src/workers/paymentWorker.ts:42-125 | a worker pass is a run over the listed payouts in order, with at most one step on each and none on others |
| `PaymentProofs.PassOnDesk` | backend/src/workers/paymentWorker.ts:42-125 | in a run with creations under way, the steps of a pass do the same to the records and touch no creation |
| `PaymentServices.PaymentService.CreatePayoutTransaction` | backend/src/services/paymentService.ts:103-164 | looks up, reserves, builds through the breaker and inserts as specified, records and breaker both |
| `PaymentServices.PaymentService.BuildPreparedTransaction` | backend/src/services/paymentService.ts:413-453 | asks for the account and for preparation through the breaker and checks the fee: the amount in stroops only if all goes well, with the breaker as two calls leave it |
| `PaymentServices.PaymentService.QueueSignedTransaction` | backend/src/services/paymentService.ts:166-183 | queues a signed form only when one is awaited and it decodes to the authorised call |
| `PaymentServices.PaymentService.SignedTransactionMatches` | backend/src/services/paymentService.ts:336-394 | the checks one after another accept exactly the forms that match the record and the settings |
| `PaymentServices.PaymentService.SubmitQueuedTransaction` | backend/src/services/paymentService.ts:185-272 | one submission through the breaker, with every outcome recorded as specified |
| `PaymentServices.PaymentService.ConfirmSubmittedTransaction` | backend/src/services/paymentService.ts:274-312 | one status query through the breaker |
| `PaymentServices.PaymentService.ReconcileLast` | backend/src/workers/txReconciler.ts:13-50 | the last confirmation job and its handler leave no payout pending, and the breaker as one query leaves it |
| `PaymentServices.InMemoryTransactionRepository.Insert` | backend/src/repositories/inMemoryTransactionRepository.ts:26-29 | stores the record and its key, in insertion order |
| `PaymentServices.InMemoryTransactionRepository.ReserveNextNonce` | backend/src/repositories/inMemoryTransactionRepository.ts:19-24 | hands out the next nonce of a source |
| `PaymentWorkers.ListingFacts` | backend/src/repositories/inMemoryTransactionRepository.ts:48-55 | a listing shows current records of the asked statuses, none twice, oldest first, within the limit |
| `PaymentWorkers.ListingIsComplete` | backend/src/repositories/inMemoryTransactionRepository.ts:48-55 | a record with an asked status is left out only of a listing that is full of records no younger |
| `PaymentWorkers.PaymentWorker.ProcessBatch` | backend/src/workers/paymentWorker.ts:42-125 | one pass steps each listed payout once, and each counter is exactly the number of moves of its kind made, failures including the queries that threw |
| `PaymentWorkers.PaymentWorker.HandleFailedTransaction` | backend/src/workers/paymentWorker.ts:127-188 | retries after the backoff, waits before it, gives up at the limit |
| `CircuitBreakers.SequentialRunsAreJustified` | backend/src/utils/circuitBreaker.ts:36-100 | one call after another: open only with counts that trip it, never left half-open |
| `CircuitBreakers.ProbeDecides` | backend/src/utils/circuitBreaker.ts:36-60 | nothing runs before the reset time; then a success closes with zero counters and a failure reopens |
| `CircuitBreakers.OutageIsThrottled` | backend/src/utils/circuitBreaker.ts:36-100 | while every call fails, at most one call per reset interval is let through |
| `CircuitBreakers.RejectedIff` | backend/src/utils/circuitBreaker.ts:36-100 | a call is turned away exactly by an open breaker with no failure on record, one at time 0, or one more recent than the reset time |
| `CircuitBreakers.OpenBreakerRecovers` | backend/src/utils/circuitBreaker.ts:36-100 | after any calls made too early, the first call from the end of the reset time on, however late, closes the breaker if it succeeds |
| `CircuitBreakers.FailureOpensIff` | backend/src/utils/circuitBreaker.ts:84-95 | a failure opens a closed breaker exactly when enough calls are counted and the failures are a large enough share of them |
| `CircuitBreakers.InterleavingStaysJustified` | backend/src/utils/circuitBreaker.ts:36-100 | the same invariant for overlapping calls without late successes |
| `CircuitBreakers.FailedProbeReopens` | backend/src/utils/circuitBreaker.ts:84-95 | a failed probe reopens a justified breaker |
| `CircuitBreakers.FailedProbeReopensIff` | backend/src/utils/circuitBreaker.ts:36-100 | after any overlapping calls from a new breaker that leave it half-open, a failing call reopens it exactly if the failures are a large enough share of all calls counted; otherwise it stays half-open and admits every call |
| `CircuitBreakers.LateSuccessesDecideReopening` | backend/src/utils/circuitBreaker.ts:76-95 | the case of a number of late successes on an open breaker, worked out from its counts |
| `CircuitBreakers.HalfOpenAfterFailedProbe` | backend/src/utils/circuitBreaker.ts:76-95 | a concrete run from a new breaker that ends half-open after a failed probe |
| `CircuitBreakers.CircuitBreaker.Fire` | backend/src/utils/circuitBreaker.ts:36-60 | one call computes the specified transition and result |
| `CircuitBreakers.CircuitBreaker.OnFailure` | backend/src/utils/circuitBreaker.ts:84-95 | counts, stamps the time, and trips on volume and rate |

## Left out

- i128 overflow: unchecked `+` and `*` are modelled as a trap that rolls the call back; a build without overflow
  checks would wrap around instead. Where it can happen is stated: `FitsNow`, `Fits`, `Quotable`.
- ArenaAccounts.StepKeepsAccounts: speaks of runs of fewer than 2^32 - 1 rounds; at its ceiling the round counter stands still and
  later rounds overwrite the last one's records.
- ArenaPrize.PrizeIsExact: is stated where the vault's products fit in an i128; SmallFeesAlwaysPay replaces that by a
  bound on the entry fee, and ClaimPaysWhatIsOwed does without either.
- Signatures: `require_auth` is a precondition of a run; nobody but the arena signs for the arena's account.
- The stake token of the arena and the pool: an honest ledger whose supply fits in an i128; the arena's re-entrancy
  guard has nothing to guard against then, and is not modelled.
- Hashing: SHA-256 is an injective constructor; salts are byte strings of any length.
- Events, storage lifetimes, upgrades, version queries, active-pool counters and the factory's callbacks.
- The oracle: its yield rate is an input of settling a round, stored and never used in a payment.
- The vault's solvency: a deposit takes no tokens, so nothing ties what all positions together are owed to what its
  account holds; what that means for a prize is in ClaimPaysWhatIsOwed, FundedPrizeIsPaidInFull and WithdrawalCompetes.
- The vault's admin transfer, and the shortfall it reports as an event.
- Encoding: what a signed form decodes to, and whether a call can be encoded, are inputs; `errorMessage` is not kept.
- Request schemas apart from the amount: whether a request is well formed is an input.
- PaymentServices.InMemoryTransactionRepository.List: filters and sorts by the specification function, as the source does by library calls.
- PaymentServices.PaymentService.ReconcileLast: takes the last job and its failure handler as one atomic step; queue scheduling and
  earlier attempts are the plain confirmation step.
- Overlapping service calls on one stored record, `pollConfirmation`, and listeners of the breaker; handing a payout to
  the confirmation queue always succeeds.
- The breaker's error rate is an exact real number, not a floating-point one.
- Administrative force-resolve, resubmit and reconciliation, which reset the retry state on purpose.
- Frontend, HTTP layer, other repositories, `contract/factory`, `contract/oracle`, and the older arena in
  `contracts/arena`: not part of this model.
