# ChessView backend: a verified model

A Dafny model of the five stateful parts of the ChessView backend, with proofs about whole runs of them.
`dafny verify dfyconfig.toml` checks everything.

**Swiss tournaments.** `Swiss` holds one round of pairing: the ranking, the bye, the opponent scan and the colours, each
loop as a method proved against a function. `SwissRound` says what one round promises, `SwissHistory` what many rounds
over a fixed field promise, `TieBreaks` what double counting says of the tie-breaks. `TournamentRun` is the service as an
object whose methods update its rows; `TournamentLaws` proves an invariant, a score ledger and termination over all runs
of its requests; `TournamentTrace` carries the results about many rounds over to those runs, and `TournamentRules` says of
the rows themselves what each request asks for and does.

**Games and clocks.** `Chess` is the chess library seen from outside: a record of functions on positions that obey a few
laws. `GameClock` is the authoritative clock, `GameOutcomes` the game entity and the functions that change it in place,
`GameService` the requests on stored games with commit and rollback. `GameLaws` proves the lifecycle, the faithfulness of
the stored history, the end of every game and the completeness of the monitor; `GameRules` says what each request does to
a game going on; `ClockLaws` holds the clocks against the wall clock.

**Matchmaking.** `MatchQueue` takes each service call as one step and proves what the search finds and that the queue
settles after each join; `MatchLaws` says so of what the users asked for. `MatchInterleaving` runs the same calls one Redis
command at a time, interleaved in any order with expiries, and proves what the lock guarantees; `MatchRaces` holds runs in
which it does not. `MatchSettling` proves when overlapping joins and searches still settle the queue, `MatchSearch` that a
call left alone does what `MatchQueue` says.

**Club slugs** (`ClubSlug`) and the **coin wallet** (`Wallet`, with the laws of its runs in `WalletLaws` and of each request
in `WalletRules`) complete the model; `Common` holds sums over sequences.

Scores are in half points, instants in microseconds, clock times in milliseconds, and ids are numbers that sort like
the text they stand for. A request that raises before its commit leaves the state as it was. Clocks, coin flips, commit
failures, chess rules and the answers of other repositories are parameters.

What the code does where a reader might expect otherwise, each stated as a lemma:

- A held score gap of zero counts as infinite in the opponent scan, so the closest opponent is missed exactly when somebody
  unmet is on the player's own score and somebody unmet is not (`Swiss.ClosestOpponentIff`, `Swiss.ClosestOpponentMissed`).
- A bye counts as a game with White, so colour balances add up to the number of byes (`SwissHistory.BalancesSumToByes`).
- A side with no time left may move while its opponent is disconnected (`GameLaws.PausedSideMovesOnZero`).
- A draw is agreed by one participant alone; no offer is recorded or asked for (`GameService.Service.AcceptDraw`).
- The matchmaking lock is that of the time control read before locking, and it expires by itself. A ticket can enter two
  pairs when a lock expires inside its critical section, or when one user has two requests in flight; without either it
  cannot (`MatchInterleaving.EachTicketOnce`, `MatchRaces.ExpiredLockPairsTwice`, `MatchRaces.WrongLockPairsTwice`).
- A search that finds the lock taken gives up and is not repeated, so two users who could play each other may both be left
  waiting (`MatchRaces.BothLeftWaiting`). While no search is refused its lock this cannot happen, however calls overlap
  (`MatchSettling.InterleavedQuiescence`).
- A refund withdraws the player even when another payment for the same seat is successful, and exactly then the player of a
  successful payment is not registered (`WalletLaws.RefundKeepsSeatsIff`, `WalletLaws.RegistrationFollowsPayment`).
- A payment that succeeds again after its refund takes no coins (`WalletLaws.SuccessHoldsAmountIff`,
  `WalletLaws.SuccessAfterRefundIsFree`).
- Making a slug of a slug can shorten it, exactly when the cut at 100 characters left a dash (`ClubSlug.SlugifyTwiceIff`).

## Model

| member | source | states |
|---|---|---|
| `Swiss.StandingsMembers` | backend/domains/tournaments/domain/services.py:40-44 | Ranking neither adds, drops nor changes a player |
| `Swiss.StandingsRanked` | backend/domains/tournaments/domain/services.py:40-44 | With distinct ids the sort key is a strict total order: standings are strictly ranked |
| `Swiss.StandingsOrder` | backend/domains/tournaments/domain/services.py:40-44 | Of two listed players the first has the higher score, or on level scores the higher rating, then the earlier joining, then the lower id |
| `Swiss.RankedUnique` | backend/domains/tournaments/domain/services.py:40-44 | There is one way only to rank a collection of players |
| `Swiss.ColorBalance` | backend/domains/tournaments/domain/services.py:184-190 | The one-pass dictionary holds White appearances, byes included, minus Black appearances, of every player |
| `Swiss.ByeIndex` | backend/domains/tournaments/domain/services.py:136-143 | Everybody ranked below the choice has had a bye; a second bye only if everybody has had one, and then to the last |
| `Swiss.ChooseByePlayer` | backend/domains/tournaments/domain/services.py:136-143 | The backward loop finds that player |
| `Swiss.FilterOutOne` | backend/domains/tournaments/domain/services.py:64-67 | Filtering the bye player out by id removes exactly one entry |
| `Swiss.ChooseOpponentIndex` | backend/domains/tournaments/domain/services.py:146-163 | The scan loop, its zero gap read as infinite, computes the scan function |
| `Swiss.OpponentOnRankedList` | backend/domains/tournaments/domain/services.py:146-163 | The index is chosen if and only if it is: 0 when everybody has been met; else the first unmet candidate off the player's score, or the last unmet one when all are on it |
| `Swiss.ClosestOpponentIff` | backend/domains/tournaments/domain/services.py:154-161 | The pick has the smallest score gap among the unmet if and only if the unmet are all on the player's score or all off it |
| `Swiss.ClosestOpponentMissed` | backend/domains/tournaments/domain/services.py:159-161 | A ranked list on which a player half a point behind is preferred to two on the same score |
| `Swiss.Colors` | backend/domains/tournaments/domain/services.py:166-181 | Both players are seated, and White's balance is not above Black's |
| `Swiss.AssignColors` | backend/domains/tournaments/domain/services.py:166-181 | The lookup in the balance dictionary gives the colours by true balances |
| `Swiss.GenerateSwissPairings` | backend/domains/tournaments/domain/services.py:47-81 | The pairing loop stays in bounds, ends, and computes the assignments the lemmas below speak of |
| `SwissRound.ExactCover` | backend/domains/tournaments/domain/services.py:61-81 | Each player is in exactly one assignment, nobody else is in any, there are ceil(n/2), and a bye exactly when n is odd, in front |
| `SwissRound.NoSelfPairing` | backend/domains/tournaments/domain/services.py:69-79 | Nobody is paired with themself or with a stranger |
| `SwissRound.OpponentsOfRound` | backend/domains/tournaments/domain/services.py:69-79 | After the bye every assignment pairs its best-ranked player left with: the best-ranked other one left if all of them have a stored pairing with that player; else one who has none, the best-ranked off the player's score if there is any, and the lowest-ranked otherwise; colours follow balance, then the round's parity |
| `SwissRound.RematchOnlyIfForced` | backend/domains/tournaments/domain/services.py:53-57 | Two players with a stored pairing together are paired again only if the higher-ranked of them has one with everybody in the later assignments |
| `SwissRound.OrderIndependent` | backend/domains/tournaments/domain/services.py:47-81 | Permuting the players and permuting the prior pairings changes nothing |
| `SwissRound.PlanSwissPairings` | backend/domains/tournaments/domain/services.py:84-102 | Pairs the active players, with one warning for each assignment whose players have a stored pairing together, then one for a bye |
| `SwissRound.RematchWarnings` | backend/domains/tournaments/domain/services.py:92-99 | The warning loop counts the assignments whose players have a stored pairing together |
| `SwissHistory.AppearsOncePerRound` | backend/domains/tournaments/domain/services.py:47-81 | Over any number of rounds of a fixed field everybody appears exactly once a round |
| `SwissHistory.BalanceParity` | backend/domains/tournaments/domain/services.py:166-190 | All balances share the parity of the number of rounds |
| `SwissHistory.BalancesSumToByes` | backend/domains/tournaments/domain/services.py:184-190 | Over any list of pairings the balances sum to the number of byes |
| `SwissHistory.ColourBalanceBound` | backend/domains/tournaments/domain/services.py:166-190 | With a fixed even field the squared balances sum to at most twice the games paired, for any rounds and results |
| `SwissHistory.ByesSoFar` | backend/domains/tournaments/domain/services.py:58-67 | The bye recipients after n rounds are those of the n rounds' byes |
| `SwissHistory.ByeGoesToLastWithout` | backend/domains/tournaments/domain/services.py:136-143 | Each bye goes to the last-ranked player without one; a second bye is given only when all have one |
| `SwissHistory.FirstByesDiffer` | backend/domains/tournaments/domain/services.py:58-67 | With a fixed odd field of n the byes of the first n rounds go to n different players |
| `SwissHistory.ByeRows` | backend/domains/tournaments/application/services.py:325-337 | The stored byes are one a round, each that round's |
| `TieBreaks.BuchholzScores` | backend/domains/tournaments/domain/services.py:105-113 | The accumulating loop gives every player the sum of the opponents' listed scores |
| `TieBreaks.BuchholzOfOpponents` | backend/domains/tournaments/domain/services.py:105-113 | A player's total is the sum of the other players' scores, each once for every game against that player |
| `TieBreaks.BuchholzTotal` | backend/domains/tournaments/domain/services.py:105-113 | The Buchholz totals add up to each player's score once per game played |
| `TieBreaks.DirectEncounterScore` | backend/domains/tournaments/domain/services.py:116-126 | The loop sums the points taken from the opponent in decided games |
| `TieBreaks.DirectScoreIsWinsAndDraws` | backend/domains/tournaments/domain/services.py:116-126 | The score against an opponent is two half points for each win and one for each draw between the two |
| `TieBreaks.DirectEncountersShare` | backend/domains/tournaments/domain/services.py:116-126 | Two players' mutual scores share out the decided games between them |
| `TournamentRun.SwissRoundCount` | backend/domains/tournaments/domain/services.py:24-27 | The least number of rounds whose power of two reaches the field; none below two players |
| `TournamentRules.RoundsHalve` | backend/domains/tournaments/domain/services.py:24-27 | No round for one player, and for a larger field one more than for half of it, rounded up |
| `TournamentRun.TournamentService.constructor` | backend/domains/tournaments/application/services.py:100-118 | A new tournament, its owner as first player |
| `TournamentRun.TournamentService.CreateTournament` | backend/domains/tournaments/application/services.py:76-118 | A blank name or no valid clock is refused first, then an unknown owner, and nothing is stored; otherwise the new tournament |
| `TournamentRun.TournamentService.ConfirmEntry` | backend/domains/payments/service.py:176-201 | A successful entry payment makes the player active again, or adds the player without points |
| `TournamentRun.TournamentService.WithdrawEntry` | backend/domains/payments/service.py:166-168 | A refunded entry payment makes the player inactive, if there is one |
| `TournamentRun.TournamentService.JoinTournament` | backend/domains/tournaments/application/services.py:161-179 | Joining with the rating of the account, or the first error raised (closed, already joined, no such user) and nothing changed |
| `TournamentRun.TournamentService.LeaveTournament` | backend/domains/tournaments/application/services.py:214-225 | Leaving during registration, not for the owner |
| `TournamentRun.TournamentService.WithdrawPlayer` | backend/domains/tournaments/application/services.py:149-159 | Withdrawing oneself, or anybody as the owner |
| `TournamentRun.TournamentService.StartTournament` | backend/domains/tournaments/application/services.py:227-245 | Starting: the number of rounds fixed and round one created |
| `TournamentRun.TournamentService.AdvanceTournament` | backend/domains/tournaments/application/services.py:247-250 | The owner's request to advance |
| `TournamentRun.TournamentService.AdvanceWhenComplete` | backend/domains/tournaments/application/services.py:269-302 | The next round, or the finish, once the current round is decided |
| `TournamentRun.TournamentService.SyncGameResult` | backend/domains/tournaments/application/services.py:252-267 | A finished game's result stored once, then the advance |
| `TournamentRun.TournamentService.StorePairingResult` | backend/domains/tournaments/application/services.py:360-383 | The result stored and both scores credited |
| `TournamentRun.TournamentService.CreateRoundPairings` | backend/domains/tournaments/application/services.py:304-358 | The loop stores one row for each assignment, creates one game for each pair and credits the byes |
| `TournamentLaws.CreatedInv` | backend/domains/tournaments/application/services.py:100-118 | A new tournament satisfies the invariant |
| `TournamentLaws.StepKeeps` | backend/domains/tournaments/application/services.py:149-302 | Every request keeps the invariant: rows well formed, games distinct, earlier rounds decided, scores equal to the rows' points |
| `TournamentLaws.RunKeeps` | backend/domains/tournaments/application/services.py:149-302 | So does every run |
| `TournamentLaws.ScoreLedger` | backend/domains/tournaments/application/services.py:360-383 | In every run all scores together are one point for each decided pairing, byes included, and nobody has more than a point a round |
| `TournamentLaws.SyncTwice` | backend/domains/tournaments/application/services.py:252-267 | Syncing a game again changes nothing, whatever the repository says by then |
| `TournamentLaws.SyncStores` | backend/domains/tournaments/application/services.py:252-267 | A sync has an effect if and only if the pairing is open and the game is over with a result or an abort; it stores that result, an aborted game as a draw, in that pairing and round |
| `TournamentLaws.NeverStuck` | backend/domains/tournaments/application/services.py:247-302 | An active tournament can be advanced if and only if no game of its round is open |
| `TournamentLaws.AdvanceLowers` | backend/domains/tournaments/application/services.py:269-302 | Each advance lowers the measure of rounds to come and open games |
| `TournamentLaws.SyncLowers` | backend/domains/tournaments/application/services.py:252-302 | Each effective sync decides one open game of the current round by the game's own result, an abort as a draw, and lowers the measure |
| `TournamentLaws.FieldKeeps` | backend/domains/payments/service.py:161-201 | Withdrawals, entry payments and refunds keep the invariant: rows change in who is active only, and at most one player without points is added |
| `TournamentLaws.FieldChangesOne` | backend/domains/payments/service.py:161-201 | A paid entry has its player paired from the next round on, a refund or a withdrawal ends that, and nobody else's place changes |
| `TournamentLaws.RunsEnd` | backend/domains/tournaments/application/services.py:247-302 | A started tournament takes no more effective syncs and advances than its measure and its number of rounds for each player that payments add, in any run |
| `TournamentLaws.FinishedIsFinal` | backend/domains/tournaments/application/services.py:286-289 | It finishes only after the last round with everything decided; then no request changes a pairing, a score, the round or the status, and only withdrawals and entry payments change who is active or listed |
| `TournamentRules.ScoreIsWinsAndDraws` | backend/domains/tournaments/application/services.py:360-383 | In every run a score is, in half points, two for each stored win with either colour, byes included, and one for each stored draw |
| `TournamentRules.CreatedWithOwner` | backend/domains/tournaments/application/services.py:76-118 | A new tournament is open for registration with its owner as the one player |
| `TournamentRules.JoinRules` | backend/domains/tournaments/application/services.py:161-179 | Accepted exactly from known users not listed while registration is on, adding just their row; which error otherwise |
| `TournamentRules.LeaveRules` | backend/domains/tournaments/application/services.py:214-225 | Accepted exactly from listed players other than the owner while registration is on, taking just their row out; which error otherwise |
| `TournamentRules.WithdrawRules` | backend/domains/tournaments/application/services.py:149-159 | Accepted exactly for listed players by themselves or the owner, who are not paired any more |
| `TournamentRules.EntryAddsRow` | backend/domains/payments/service.py:187-201 | A paid entry of somebody not listed adds just that player, with the rating of the account and no points |
| `TournamentRules.StartRules` | backend/domains/tournaments/application/services.py:227-245 | Accepted exactly from the owner before the start with rounds configured or two active players; the rounds stay as configured, or are the least whose power of two reaches the active field |
| `TournamentRules.AdvanceRules` | backend/domains/tournaments/application/services.py:247-302 | Accepted exactly from the owner of an active tournament with its round decided, leading to the next round or, after the last, the finish |
| `TournamentRules.SyncAdvances` | backend/domains/tournaments/application/services.py:252-302 | A sync that stores the last missing result of its round opens the next round or finishes after the last; any other sync that stores a result waits on |
| `TournamentRules.MissingPlayerStops` | backend/domains/tournaments/application/services.py:360-383 | A result is stored before its players are looked up: when one is missing it stays stored and nobody has points |
| `TournamentRules.SyncFailsIff` | backend/domains/tournaments/application/services.py:252-267 | A sync fails exactly when it would store a result and a player of that pairing is missing |
| `TournamentRules.SyncStopsAtMissing` | backend/domains/tournaments/application/services.py:252-267 | It then leaves round, status and scores as they are |
| `TournamentRules.RoundPairsActive` | backend/domains/tournaments/application/services.py:291-337 | A new round keeps the rows before it and has rows of its own for exactly the active players |
| `TournamentTrace.StripAssignments` | backend/domains/tournaments/application/services.py:296-301 | Stored games and results play no part in the next pairings |
| `TournamentTrace.TraceOf` | backend/domains/tournaments/application/services.py:227-302 | A run without withdrawals, entry payments and refunds stores exactly the rounds of a fixed field |
| `TournamentTrace.RunColours` | backend/domains/tournaments/application/services.py:291-301 | In every such run balances have the round's parity, and an even field meets the colour bound |
| `TournamentTrace.RunByes` | backend/domains/tournaments/application/services.py:291-337 | In every such run of an odd field the byes of the first n rounds differ |
| `Chess.LawsAreConsistent` | backend/domains/game/domain/moves.py:7-9 | The laws asked of the chess library can be met, even by a game that never runs out of moves |
| `GameOutcomes.GameEntity.BoardWithHistory` | backend/domains/game/domain/moves.py:60-73 | The replay loop gives the replayed board, or the stored position alone when a move fails or the positions disagree |
| `GameOutcomes.GameEntity.ApplyPlayerMove` | backend/domains/game/domain/moves.py:16-57 | An accepted move changes clocks, position and outcome as stated; a rejected one changes nothing |
| `GameOutcomes.GameEntity.ApplyBoardOutcome` | backend/domains/game/domain/outcomes.py:13-36 | Checkmate, stalemate, draws and repetition end the game, in this order; otherwise the clock starts |
| `GameOutcomes.GameEntity.FinishGame` | backend/domains/game/domain/outcomes.py:99-112 | Status, result and reason set, clock and absence cleared |
| `GameOutcomes.GameEntity.ClearDisconnectState` | backend/domains/game/domain/outcomes.py:94-96 | Absence and deadline cleared, nothing else |
| `GameOutcomes.GameEntity.Resign` | backend/domains/game/domain/outcomes.py:39-43 | The resigning side loses, clocks as captured |
| `GameOutcomes.GameEntity.ForfeitForIdentityFailure` | backend/domains/game/domain/outcomes.py:46-50 | The failing side loses, clocks as captured |
| `GameOutcomes.GameEntity.AcceptDraw` | backend/domains/game/domain/outcomes.py:53-56 | A draw by agreement, clocks as captured |
| `GameOutcomes.GameEntity.TimeOut` | backend/domains/game/domain/outcomes.py:59-71 | The loser's clock is zero and the other side wins |
| `GameOutcomes.GameEntity.Abort` | backend/domains/game/domain/outcomes.py:74-77 | No result, clocks as captured |
| `GameOutcomes.GameEntity.PauseForDisconnect` | backend/domains/game/domain/outcomes.py:80-85 | The clock stops, the absentee and deadline are recorded |
| `GameOutcomes.GameEntity.ResumeAfterReconnect` | backend/domains/game/domain/outcomes.py:88-91 | The clock runs again from now |
| `GameService.Service.CreateGame` | backend/domains/game/application/services.py:45-56 | A new game stored, or nothing when the commit fails |
| `GameService.Service.MakeMove` | backend/domains/game/application/services.py:58-82 | A flag fall, a recorded move, or an error; on any error both the game and its moves are as before |
| `GameService.Service.Save` | backend/domains/game/application/services.py:192-199 | One game replaced, or nothing when the commit fails |
| `GameService.Service.Resign` | backend/domains/game/application/services.py:84-91 | Only a participant of an active game; no other game changes |
| `GameService.Service.StopForIdentityVerificationFailure` | backend/domains/game/application/services.py:93-100 | Only a participant of an active game; no other game changes |
| `GameService.Service.AcceptDraw` | backend/domains/game/application/services.py:102-109 | Either participant alone ends an active game in a draw |
| `GameService.Service.NewestActiveGame` | backend/domains/game/infrastructure/repository.py:34-46 | An active game of the user with none started later, if there is any |
| `GameService.Service.MarkDisconnected` | backend/domains/game/application/services.py:125-133 | Pauses the newest active game of the user and no other |
| `GameService.Service.MarkReconnected` | backend/domains/game/application/services.py:135-141 | Resumes that game if it waits for this user |
| `GameService.Service.MonitorActiveGames` | backend/domains/game/application/services.py:143-162 | The loop brings every stored game to its monitored state and returns exactly those changed; a commit that fails ends the pass and leaves every other game as it was |
| `GameService.Service.MonitorGame` | backend/domains/game/application/services.py:147-160 | The loop body on one game |
| `GameLaws.StepLifecycle` | backend/domains/game/domain/outcomes.py:39-112 | Every request keeps: active is running, or paused with a participant absent; finished has no clock; a result unless active or aborted |
| `GameLaws.FinishedIsAbsorbing` | backend/domains/game/application/services.py:201-207 | No run of requests changes a finished game |
| `GameLaws.FallbackNeverFires` | backend/domains/game/domain/moves.py:60-73 | For a faithful history the board with history is the full replay |
| `GameLaws.StepKeeps` | backend/domains/game/application/services.py:58-181 | Every request keeps lifecycle, history, playability and the move bound, and the board only grows |
| `GameLaws.RunKeeps` | backend/domains/game/application/services.py:58-181 | So does every run |
| `Chess.ReplayIff` | backend/domains/game/domain/moves.py:60-73 | A replay succeeds with a board exactly when that board begins at the start and each move was legal and led to its next position |
| `GameLaws.HistoryIsFaithful` | backend/domains/game/domain/moves.py:60-73 | In every run the stored moves replay to the stored position and each position after a move; numbers are 1..n and movers alternate |
| `GameLaws.EveryGameEnds` | backend/domains/game/domain/outcomes.py:13-36 | An active game has a legal move, enough material, no threefold position and a half-move clock below 100; at most 100(K+1) moves are ever stored |
| `GameLaws.MoveOutcomeIff` | backend/domains/game/domain/outcomes.py:13-36 | After a recorded move the status is checkmate, stalemate, drawn or active if and only if the new board is; draws exactly on dead material, 100 half-moves or a third occurrence, with the reason |
| `GameLaws.MoveAcceptedIff` | backend/domains/game/application/services.py:58-82 | A move is recorded if and only if it is legal, made by the side to move, and that side is not flagged |
| `GameLaws.PausedSideMovesOnZero` | backend/domains/game/domain/clock.py:83-92 | A run in which a side with 0 ms moves while the opponent is away |
| `GameLaws.TheRightSideWins` | backend/domains/game/domain/outcomes.py:13-77 | Mate is won by the mover and is mate on the new board; a draw was agreed or its condition holds on the new board; only an overdue game is lost on time, by the side to move when running; a resignation loses for the one who made it; an abort needs an expired absence and fewer than two moves |
| `GameLaws.MonitorIsComplete` | backend/domains/game/application/services.py:143-181 | A pass ends exactly the overdue games, a second pass at the same instant none; who loses, or the abort |
| `GameLaws.MonitorEndsIdleGames` | backend/domains/game/application/services.py:143-162 | Any pass from a game's deadline on ends it |
| `GameLaws.PausedByDisconnect` | backend/domains/game/domain/outcomes.py:80-85 | In every run a paused game was last changed by a disconnect of the user it waits for, and waits exactly the grace of that request from its instant |
| `GameLaws.PauseLastsItsGrace` | backend/domains/game/application/services.py:143-154 | In every run a pass ends a paused game if and only if the grace of that disconnect is over by then |
| `GameRules.ReconnectResumes` | backend/domains/game/application/services.py:135-141 | A reconnect of the absentee resumes the game from that instant with the clocks as they stand; of anybody else it changes nothing |
| `GameRules.DisconnectPauses` | backend/domains/game/application/services.py:125-133 | A disconnect of a participant stops the clock and the game waits for that participant for the grace given |
| `GameRules.ResignationEnds` | backend/domains/game/application/services.py:84-100 | A resignation or failed identification of a participant ends the game at once, lost by that side |
| `GameRules.DrawEnds` | backend/domains/game/application/services.py:102-109 | A draw accepted by a participant ends the game at once, drawn by agreement |
| `GameRules.EndsAtTheRequest` | backend/domains/game/domain/outcomes.py:13-77 | Whatever ends a game is dated by its request and gives the fitting reason; players, start and time control never change |
| `GameRules.AbsenteeLoses` | backend/domains/game/application/services.py:146-154 | Once the grace is over a pass has the absentee lose if two moves were made, and else aborts the game |
| `GameRules.BoardOfStored` | backend/domains/game/domain/moves.py:60-73 | The board a move is judged on is the replay of the stored moves, or the stored position alone when there is none or it disagrees |
| `GameRules.NobodyNamedLoses` | backend/domains/game/application/services.py:146-152 | A grace that is over without a stored absentee goes against the side to move |
| `GameRules.MoveRefusals` | backend/domains/game/application/services.py:58-80 | A fallen flag ends the game before anything else; otherwise a move is refused exactly to the side not on move, and then if illegal |
| `GameRules.MoveIsStored` | backend/domains/game/application/services.py:64-80 | An accepted move is stored with its player, text, position and number, ends any waiting, and restarts the clock |
| `GameRules.SeatsAndTimes` | backend/domains/game/application/services.py:45-56 | In every run players, start and time control are those the game was created with |
| `ClockLaws.ClockStartsAtLastChange` | backend/domains/game/domain/outcomes.py:36-36 | In every run a ticking clock was started at the last request that changed the game |
| `ClockLaws.ClocksAccountForRunningTime` | backend/domains/game/domain/clock.py:55-80 | In every run an unclamped side has initial plus increments minus the time it was on the move, counted from the instants of the requests alone, and under 1 ms more per stretch |
| `ClockLaws.AccountIsWallTime` | backend/domains/game/domain/clock.py:95-101 | With requests in order that time is the wall-clock time the side was to move with the game neither paused nor over |
| `ClockLaws.ShownClockIsTrue` | backend/domains/game/domain/clock.py:55-80 | At any later instant the clock shown is what is due by the wall clock, to within 1 ms per stretch and 1 for the reading, in the side's favour |
| `ClockLaws.PausedClocksStandStill` | backend/domains/game/domain/clock.py:95-101 | A paused clock shows the same at any instant |
| `ClockLaws.PauseCostsAtMostOneMs` | backend/domains/game/domain/outcomes.py:80-91 | A pause and resume leaves the clock at the unpaused one's reading or 1 ms above it |
| `MatchQueue.ZRangeMembers` | backend/domains/matchmaking/application/services.py:133-135 | The listing holds exactly the members of the sorted set |
| `MatchQueue.ZRangeSorted` | backend/domains/matchmaking/application/services.py:133-135 | The listing is ordered by score, then by id |
| `MatchQueue.MatchmakingService.Join` | backend/domains/matchmaking/application/services.py:55-84 | Joining writes hash and sorted set and answers the rank; refused while a hash is live |
| `MatchQueue.MatchmakingService.Leave` | backend/domains/matchmaking/application/services.py:86-93 | Leaving removes both, or is refused |
| `MatchQueue.MatchmakingService.FindBestMatch` | backend/domains/matchmaking/application/services.py:133-162 | The loop returns the scan's choice and removes exactly the members whose hash is gone |
| `MatchQueue.MatchmakingService.Match` | backend/domains/matchmaking/application/services.py:95-131 | The pair, both users removed; or nothing but dead members removed |
| `MatchQueue.MatchmakingService.HandleQueueJoin` | backend/domains/matchmaking/presentation/ws_handler.py:45-68 | Joining and, unless refused, searching at once |
| `MatchQueue.ScanIsFirstNearest` | backend/domains/matchmaking/application/services.py:136-162 | The scan finds the first of the nearest eligible entries of any listing, or none when none is eligible |
| `MatchQueue.BestMatchIsLeast` | backend/domains/matchmaking/application/services.py:133-162 | The match is the least by gap, joining time and id of all eligible live users, whatever stale members are listed |
| `MatchQueue.JoinThenMatchSettles` | backend/domains/matchmaking/presentation/ws_handler.py:45-68 | A complete join keeps the queue consistent and settled |
| `MatchQueue.JoinThenMatchWaiting` | backend/domains/matchmaking/application/services.py:95-131 | Exactly who waits afterwards, a newcomer under the entry joined with, or who is paired, for the game both asked for and at most 200 points apart |
| `MatchQueue.StepSettles` | backend/domains/matchmaking/application/services.py:55-131 | Joins, leaves and the passing of time keep both |
| `MatchQueue.QueueQuiescence` | backend/domains/matchmaking/application/services.py:37-162 | In every run no two live users of one time control and clock are within 200 points |
| `MatchQueue.WaitingBound` | backend/domains/matchmaking/application/services.py:37-37 | At most (max - min)/201 + 1 users of one kind of game wait |
| `MatchLaws.JoinedHashes` | backend/domains/matchmaking/application/services.py:55-84 | A complete join stores what was asked for, for thirty minutes, and takes out the two users it pairs and nobody else; of somebody waiting it changes nothing |
| `MatchLaws.HashIsLastJoin` | backend/domains/matchmaking/application/services.py:55-84 | In every run a user's hash holds what that user's last accepted join asked for, for thirty minutes from it |
| `MatchLaws.LeaveRules` | backend/domains/matchmaking/application/services.py:86-93 | Accepted exactly from a waiting user, whose hash and place go and nobody else's |
| `MatchLaws.MatchClearsSet` | backend/domains/matchmaking/application/services.py:115-145 | After a search the set lists exactly its live members less the pair |
| `MatchLaws.BestMatchByRatingThenWait` | backend/domains/matchmaking/application/services.py:133-161 | The match is the possible opponent nearest in rating, then longest waiting, then least in id; there is none exactly when nobody asked for the same game within 200 points |
| `MatchLaws.NobodyLeftToPair` | backend/domains/matchmaking/application/services.py:95-131 | In every run of complete calls two users with good joins asked for different games or are more than 200 points apart |
| `MatchLaws.FarApartBothWait` | backend/domains/matchmaking/application/services.py:154-161 | Of two users 1200 points apart both wait, each under the rating joined with |
| `MatchLaws.PositionInListing` | backend/domains/matchmaking/application/services.py:77-84 | The position answered is the place in the sorted listing, counted from one |
| `MatchInterleaving.SearchKeeps` | backend/domains/matchmaking/application/services.py:133-162 | Each command of the search keeps the candidates open and of the searcher's time control |
| `MatchInterleaving.LockKeeps` | backend/domains/matchmaking/application/services.py:101-105 | Taking the lock keeps critical sections of one time control apart |
| `MatchInterleaving.DeleteKeeps` | backend/domains/matchmaking/application/services.py:115-116 | Removing a pair claims two tickets that no other call carries |
| `MatchInterleaving.StepKeeps` | backend/domains/matchmaking/application/services.py:55-193 | Every command, call and expiry allowed keeps the invariant |
| `MatchInterleaving.RunKeeps` | backend/domains/matchmaking/application/services.py:55-193 | So does every allowed run |
| `MatchInterleaving.EachTicketOnce` | backend/domains/matchmaking/application/services.py:95-131 | In every interleaving with one request per user and no lock expiry in a critical section, leaves and other expiries included, no ticket is in two pairs |
| `MatchInterleaving.OnlyTheHolderReleases` | backend/domains/matchmaking/application/services.py:182-194 | No command frees a lock that carries another call's token, even after an expiry |
| `MatchInterleaving.LockOutlastsOthers` | backend/domains/matchmaking/application/services.py:182-194 | In any run a lock stays until it expires or its holder acts |
| `MatchInterleaving.NoLockLeftBehind` | backend/domains/matchmaking/application/services.py:107-118 | In any run every lock belongs to a call still at work under it |
| `MatchRaces.ExpiredLockPairsTwice` | backend/domains/matchmaking/application/services.py:39-39 | A run in which a lock expires early and two tickets are paired twice |
| `MatchRaces.WrongLockPairsTwice` | backend/domains/matchmaking/application/services.py:97-108 | A run in which a user leaves and joins another time control during a search, and two tickets are paired twice |
| `MatchRaces.BothLeftWaiting` | backend/domains/matchmaking/application/services.py:103-105 | An allowed run in which a search is refused its lock, after which two users who could play each other wait, with every call returned and no pair |
| `MatchSettling.StepOrderly` | backend/domains/matchmaking/application/services.py:55-131 | Unless somebody leaves, a hash or sorted set expires, or a search is refused its lock, every command keeps the sets and hashes in step: a waiting ticket is in its set unless its own join is about to add it or a call is about to pair it |
| `MatchSettling.StepDuties` | backend/domains/matchmaking/application/services.py:103-165 | So does it keep that of two users who could be paired one has still to be searched for, or is in a search that may yet find the other |
| `MatchSettling.RunSettles` | backend/domains/matchmaking/application/services.py:55-165 | Both hold in every such run |
| `MatchSettling.InterleavedQuiescence` | backend/domains/matchmaking/application/services.py:103-105 | In every interleaving with one request per user and no lock expiry in a critical section, in which nobody leaves, no hash or sorted set expires and no search is refused its lock: once all calls have returned no two waiting users searched for since they joined could be paired |
| `MatchSearch.SearchChoosesBestMatch` | backend/domains/matchmaking/application/services.py:133-165 | From its listing on, a search that nothing interrupts takes the members without a hash out of the set and goes on to pair whom the one-step search chooses, or to free its lock when there is none |
| `MatchSearch.JoinAlone` | backend/domains/matchmaking/application/services.py:55-84 | Command by command, a join left alone does what the one-step join does, and changes nothing else |
| `MatchSearch.LeaveAlone` | backend/domains/matchmaking/application/services.py:86-93 | So does a leave left alone |
| `MatchSearch.MatchAlone` | backend/domains/matchmaking/application/services.py:95-131 | So does a search left alone while the lock is free: the same pair, hashes and sets, and the lock free again |
| `MatchSearch.MatchGivesUp` | backend/domains/matchmaking/application/services.py:97-105 | A search of somebody without a hash, or while the lock is taken, ends with nothing changed |
| `ClubSlug.SlugifyWellFormed` | backend/domains/clubs/application/services.py:161-163 | 1 to 100 characters over a-z, 0-9 and single dashes, no dash in front |
| `ClubSlug.NormalizedIsWordsJoined` | backend/domains/clubs/application/services.py:161-163 | Substituting and stripping joins the maximal alphanumeric runs with single dashes |
| `ClubSlug.SlugifyIsFirstSlug` | backend/domains/clubs/application/services.py:161-163 | The slug is "club" for a name without letter or digit, else its words joined by dashes, cut to 100 characters |
| `ClubSlug.SlugifyTwiceIff` | backend/domains/clubs/application/services.py:161-163 | Idempotent if and only if the cut does not end in a dash |
| `ClubSlug.DecimalReads` | backend/domains/clubs/application/services.py:152-153 | A number is written so that it reads back as itself, without leading zero |
| `ClubSlug.CandidateText` | backend/domains/clubs/application/services.py:152-153 | A numbered candidate is the base, cut to make 100 characters at most, a dash and the number; from 100 digits on the cut is from the end |
| `ClubSlug.DecimalInjective` | backend/domains/clubs/application/services.py:151-152 | Different suffix numbers have different texts |
| `ClubSlug.DecimalLength` | backend/domains/clubs/application/services.py:151-151 | A number is written with at most d digits exactly when it is below 10 to the power d |
| `ClubSlug.CandidatesDiffer` | backend/domains/clubs/application/services.py:151-153 | Numbered candidates are pairwise distinct despite truncation |
| `ClubSlug.BaseAmongCandidates` | backend/domains/clubs/application/services.py:143-153 | The base equals at most one of them, and only at full length |
| `ClubSlug.TakenCandidates` | backend/domains/clubs/application/services.py:147-153 | Pigeonhole: m - 1 taken candidates need m - 1 clubs |
| `ClubSlug.UniqueSlug` | backend/domains/clubs/application/services.py:142-153 | The first candidate no other club uses, beginning with the first slug of the name, within N + 2 lookups for N clubs |
| `ClubSlug.CandidateWellFormed` | backend/domains/clubs/application/services.py:152-152 | Every candidate is a non-empty text of letters, digits and dashes, and has at most 100 characters if and only if it is the base or its number has fewer than 100 digits |
| `Wallet.ApplyWalletCharge` | backend/domains/payments/service.py:38-52 | Debits once, or raises and changes nothing |
| `Wallet.ApplyWalletRefund` | backend/domains/payments/service.py:55-64 | Gives the recorded amount back once |
| `Wallet.WalletService.CreateEntryPayment` | backend/domains/payments/service.py:81-106 | A payment for the entry fee, its row and event stored, or an error |
| `Wallet.WalletService.CreateScheduledMatchPayment` | backend/domains/payments/service.py:108-137 | The same for a scheduled match, for its players only |
| `Wallet.WalletService.SimulatePayment` | backend/domains/payments/service.py:139-174 | The whole new state of a scenario: coins, payment, event, registration or match; nothing on an error |
| `Wallet.WalletService.ChargeAndConfirm` | backend/domains/payments/service.py:151-160 | The branch of a success |
| `Wallet.WalletService.RefundAndWithdraw` | backend/domains/payments/service.py:161-168 | The branch of a refund |
| `Wallet.WalletService.Confirm` | backend/domains/payments/service.py:176-212 | An active registration, or the match marked as paid, or an error and nothing |
| `Wallet.WalletService.PurchaseItem` | backend/domains/shop/application.py:31-53 | Coins spent and the item owned, or an error and nothing |
| `WalletRules.SuccessAcceptedIff` | backend/domains/payments/service.py:151-160 | A success is accepted exactly from a known user charged before or with the coins, for a known subject; which error otherwise |
| `WalletRules.OthersAcceptedIff` | backend/domains/payments/service.py:139-144 | Every other known scenario is accepted; which error otherwise |
| `WalletRules.ReservationKept` | backend/domains/payments/service.py:161-170 | A failure, cancellation, expiry or refund gives up the reservation, and nothing else does |
| `WalletRules.MatchPaidBySuccess` | backend/domains/payments/service.py:203-213 | A success marks its scheduled match as paid by it, and nothing else touches a match |
| `WalletRules.RefundGivesBack` | backend/domains/payments/service.py:55-64 | A refund of a charged payment gives back the recorded amount, or the payment's own when none is recorded, once |
| `WalletRules.PurchaseRules` | backend/domains/shop/application.py:31-53 | Exactly when a purchase is accepted, and that it takes the price, adds one piece, and moves nothing else |
| `WalletRules.CreationRules` | backend/domains/payments/service.py:81-137 | Exactly when a payment is opened, for which fee, uncharged and reserved |
| `WalletLaws.SimulateStep` | backend/domains/payments/service.py:139-174 | A scenario rewrites its payment alone, logs its status, moves exactly the difference of what the payment holds, and takes no flag back |
| `WalletLaws.RefusedUnchanged` | backend/domains/payments/service.py:139-174 | A scenario that raises leaves everything as it was |
| `WalletLaws.PurchaseConserves` | backend/domains/shop/application.py:42-48 | A purchase keeps everybody's total |
| `WalletLaws.WalletConservation` | backend/domains/payments/service.py:38-64 | Over any run, coins, coins held by payments and coins spent in the shop keep their sum, for every user |
| `WalletLaws.NeverOverdrawn` | backend/domains/payments/service.py:44-49 | With non-negative fees, amounts and prices nobody's coins go below zero |
| `WalletLaws.PaymentTakesItsAmountOnce` | backend/domains/payments/service.py:38-64 | Whatever its scenarios, a payment has in all taken its amount once, or nothing once refunded |
| `WalletLaws.SuccessHoldsAmountIff` | backend/domains/payments/service.py:151-160 | A success holds the amount if and only if the payment was not refunded before |
| `WalletLaws.SuccessAfterRefundIsFree` | backend/domains/payments/service.py:151-168 | Paid, refunded and paid again: successful, registered, and no coins gone |
| `WalletLaws.ScenarioRegisters` | backend/domains/payments/service.py:151-201 | A success registers the player as active, a refund withdraws an existing registration, nothing else touches it |
| `WalletLaws.RefundKeepsSeatsIff` | backend/domains/payments/service.py:161-168 | A refund keeps the players of all successful payments registered if and only if no other payment for the seat is successful |
| `WalletLaws.OtherScenariosKeepSeats` | backend/domains/payments/service.py:151-172 | Every other scenario, accepted or refused, keeps them registered |
| `WalletLaws.StepSeatsIff` | backend/domains/payments/service.py:151-201 | Whatever happens, seats go on following successes (refunds) if and only if it is not a refund (success) with another success (refund) for the seat |
| `WalletLaws.RegistrationFollowsPayment` | backend/domains/payments/service.py:151-201 | Over any run the players of successful payments are registered all along if and only if nothing is refunded while another payment for its seat is successful; likewise those of refunded payments withdrawn, if and only if nothing succeeds while another is refunded |

## Left out

- TournamentRun.SwissRoundCount: the least exponent as an integer; the floating-point logarithm of the code is not modelled.
- ClockLaws.ClocksAccountForRunningTime: instants are integer microseconds; the rounding of `total_seconds() * 1000` in floating point is not modelled.
- MatchQueue.QueueQuiescence: is about atomic calls; for interleaved commands `MatchRaces.BothLeftWaiting` shows it can fail and `MatchSettling.InterleavedQuiescence` when it does not.
- MatchSettling.InterleavedQuiescence: one direction only; a search refused its lock may turn out harmless, and runs with leaves or with expiries other than of locks are not among its runs.
- TournamentRun.TournamentService.CreateTournament: stripping the name and looking up the clock are parameters; its type, name, fee and clock are not stored in the model.
- MatchInterleaving.EachTicketOnce: counts a pair when its two hashes are deleted, and is about tickets; a user whose hash expires during another user's search may join again and be paired a second time with a new ticket.
- WalletLaws.RegistrationFollowsPayment: its runs are payments, scenarios and purchases; joining and withdrawing through the tournament service are not among them.
- The rules of chess: positions, legality, check, repetition keys and dead material are parameters under the laws of `Chess.Lawful`; `potential` stands for pawn moves and captures left.
- Concurrent calls on one tournament or one game, and lost updates between them; sessions and partial flushes. Repositories are maps and sequences.
- `set_status`, `update_tournament`, over-the-board entrants, performance scores, and the tournament's name, fee and clock.
- Ratings, PGN, time-control names and the payloads of games; time-control presets and their validation.
- The fields of registrations and scheduled matches that no payment sets, and event payloads. Equipping items and the catalogue views.
- Clubs other than the search for a slug; lower-casing of names, which arrive lower-cased.
- Redis commands that only set a time to live or read a rank, in `MatchInterleaving`; expiry may come at any moment there. In `MatchQueue` the lock is always free, calls being atomic.
- The web socket manager, profiles, puzzles, identity, ratings arithmetic, engine analysis, and both frontends.
