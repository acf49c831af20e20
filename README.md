# DOOM 3 multiplayer rules and RoQ cinematic decoder, in Dafny

This project models two parts of the DOOM 3 engine and proves properties
of the models.

**`idMultiplayerGame`** (`neo/game/MultiplayerGame.cpp`) runs a deathmatch,
tourney, team deathmatch or last-man-standing match on the server. It
covers:

- the game phases: INACTIVE, WARMUP, COUNTDOWN, GAMEON, SUDDENDEATH,
  GAMEREVIEW and NEXTGAME, and `NewState`'s work on entering each one;
- the per-client score table and the fragment (frag) rules;
- the ranking sort and the leader and tie checks;
- the tourney seats and the waiting line;
- the respawn and last-man rules, and the abort check;
- call votes and their tallies;
- the chat history;
- the clock;
- the score snapshot sent to clients.

The class `MpGame.MultiplayerGame` holds the state the source keeps in
fields: the phase, the score table, the seats, the vote and the chat
lines. Each method's contract states what it changes; where it differs
from the source, "## Left out" says how. The
value-level rules each method follows are pure functions in the `Mp*`
modules, and the lemmas about the rules are proved there. The players,
which the source reaches through `gameLocal.entities`, are a sequence of
optional player records passed in and out. The clock, the map list and
the network are parameters or results. The module `MpRun` states each
step of the server's `Run` frame as a function from the match before it
(`Match`: players, score table, seats, phase, schedule, winner, clocks,
and the phases so far) to the match after it. `Snap()` is the class's
fields as such a value, and each method of the frame ensures
`Snap() == Step(old(Snap()), ...)`.

**`idCinematicLocal`** (`neo/renderer/Cinematic.cpp`) plays RoQ videos.
It covers:

- the file header and the chunk stream read by `RoQInterrupt`;
- the codebook decoder (`decodeCodeBook`) with the YUV-to-RGB conversion;
- the quad lists that `setupQuad` and `recurseQuad` build;
- the motion table that `RoQPrepMcomp` fills;
- the vector-quantisation frame walk (`blitVQQuad32fs`) and its unrolled
  block copies;
- the playback clock of `ImageForTime`;
- `InitFromFile`, `RoQReset` and `RoQShutdown`.

The class `Cinematic.CinematicLocal` keeps the source's buffers as arrays:

- the 65536-byte chunk buffer;
- the 2x2, 4x4 and 8x8 codebook tables;
- the two quad lists;
- the motion table;
- the double frame buffer, held as 32-bit words.

The methods on these arrays are each proved against a pure specification
in the `Roq*` modules.

Addresses in the frame buffer are byte offsets into the array, and NULL
is -1. A read or write that would leave its buffer makes the operation
return `None` or `false`, and the stream then ends. Nothing in the model
reads outside a buffer.

## Model

| member | source | states |
|---|---|---|
| MpChat.History | neo/game/MultiplayerGame.cpp:2570-2578 | the shown lines, oldest first, are the chatHistorySize slots ending at chatHistoryIndex, taken modulo NUM_CHAT_NOTIFY |
| MpChat.DistinctSlots | neo/game/MultiplayerGame.cpp:2529-2530 | positions fewer than NUM_CHAT_NOTIFY apart fall in different slots, so a new line never overwrites one of the other shown lines |
| MpChat.AddLineHistory | neo/game/MultiplayerGame.cpp:2529-2536 | after AddChatLine the shown lines are the old ones with the new line appended at fade 6, of which only the newest five stay shown; size stays at most five and never above the index |
| MpChat.AddLineKeepsOrder | neo/game/MultiplayerGame.cpp:2529-2536 | appending a fresh line keeps the shown fades within 0 .. 6 and non-decreasing from oldest to newest |
| MpChat.ExpiringPrefix | neo/game/MultiplayerGame.cpp:2557-2561 | with ordered fades, the lines a fade step removes are exactly the leading lines at fade 0, and every later one has fade above 0 |
| MpChat.TickHistory | neo/game/MultiplayerGame.cpp:2553-2562 | while fades are ordered, one fade step leaves as shown history the old one without its faded-out oldest lines, each remaining line one step fainter, and keeps the fades ordered: the condition under which the "removals are always at the beginning" shortcut is right |
| MpChat.FainterOrdered | neo/game/MultiplayerGame.cpp:2557 | dropping the leading lines and fading the rest, all above 0, by one step keeps fades in 0 .. 6 and ordered |
| MpChat.TickShown | neo/game/MultiplayerGame.cpp:2555-2561 | the k-th line shown after a fade step is the (z+k)-th shown before it, one step fainter, z being the number of lines dropped |
| MpChat.FadedStep | neo/game/MultiplayerGame.cpp:2555-2557 | the fade loop's visit to shown line n decrements exactly slot (index - size + n) mod NUM_CHAT_NOTIFY, which still holds line n unfaded |
| MpChat.FadedEnds | neo/game/MultiplayerGame.cpp:2555-2562 | before the fade loop the slots are untouched; after it has visited every shown line they are those of one fade step |
| MpChat.ChatRows | neo/game/MultiplayerGame.cpp:2569-2578 | the chat rows handed to the GUI carry each shown line's text, in order, with alpha min(4, fade) |
| MpClock.ParseNatToString | neo/game/MultiplayerGame.cpp:654 | the %i text of a non-negative number reads back as that number |
| MpClock.ClockTextParse | neo/game/MultiplayerGame.cpp:648-654 | the "%i:%i%i" text of a count of seconds reads back as that count: minutes, tens of seconds below 6, seconds |
| MpClock.ClockShowsSeconds | neo/game/MultiplayerGame.cpp:632-655 | outside the countdown the clock reads back as the whole seconds left of the time limit (or played, without one), never below zero |
| MpClock.CountdownShowsSecond | neo/game/MultiplayerGame.cpp:619-631 | during the countdown the text is "WMP --" once the warmup end has passed, and otherwise "WMP n" with n = ms / 1000 + 1 |
| MpClock.TimeUpShowsZero | neo/game/MultiplayerGame.cpp:634-646 | with a time limit the clock shows "0:00" from the moment the limit is reached and more than zero before it |
| MpCount.CountsAgree | neo/game/MultiplayerGame.cpp:673-690 | the players who can play are split between the two team counts and are no more than all players, who are no more than the clients |
| MpCount.TwoCounted | neo/game/MultiplayerGame.cpp:681-684 | the count of players who can play is at least two exactly when two distinct clients can play |
| MpCount.OneCounted | neo/game/MultiplayerGame.cpp:681-684 | the count is at least one exactly when some client can play |
| MpCount.TeamCounted | neo/game/MultiplayerGame.cpp:685-688 | a team count is non-zero exactly when a player of that team can play |
| MpCount.EnoughToPlayMeans | neo/game/MultiplayerGame.cpp:698-710 | EnoughClientsToPlay holds exactly when two distinct players can play and, in TDM, each team has a player who can play |
| MpCount.ReadyUpToMeans | neo/game/MultiplayerGame.cpp:742-759 | the ready loop passes exactly when every player who can play (in a tourney every seated one) is ready or forced ready |
| MpCount.AllReadyMeans | neo/game/MultiplayerGame.cpp:717-762 | AllPlayersReady holds exactly when there are enough players to play and, with si_warmup on, every player it checks is ready |
| MpLeader.FragLeaderOf | neo/game/MultiplayerGame.cpp:858-958 | FragLeader's result is NULL (-1) or a client it marked as leader |
| MpLeader.HighPrefixIsMax | neo/game/MultiplayerGame.cpp:865-896 | the running maximum of the first loop bounds the score of every eligible player and is reached by one of them, unless nobody beats the start value -9999 |
| MpLeader.LastTopIsTop | neo/game/MultiplayerGame.cpp:925-934 | the leader the second loop keeps is the last marked player, and NULL exactly when no player is marked |
| MpLeader.TopCountOne | neo/game/MultiplayerGame.cpp:925-929 | the count of marked players is one exactly when a single player is marked |
| MpLeader.TeamLeadsExists | neo/game/MultiplayerGame.cpp:930-933 | teamLead[team] is set exactly when a marked player plays for that team |
| MpLeader.FragLeaderSolo | neo/game/MultiplayerGame.cpp:937-948 | outside TDM a leader is returned exactly when one eligible, non-eliminated, non-spectating player holds the top score, and it is that player, whose score is at least every eligible player's |
| MpLeader.FragLeaderTeams | neo/game/MultiplayerGame.cpp:949-957 | in TDM the result is NULL exactly when nobody is marked or both teams hold a marked top scorer; otherwise it is a marked top scorer |
| MpLeader.OthersHaveLivesExists | neo/game/MultiplayerGame.cpp:792-811 | the last-man scan finds frags left exactly when another player who can play has a positive frag count |
| MpLeader.FragLimitWinnerMeans | neo/game/MultiplayerGame.cpp:771-831 | FragLimitHit names a winner exactly when FragLeader names a leader and, in last man standing, nobody else who can play has frags left, in TDM the leader's team score, elsewhere its frags, reach the limit (MP_PLAYER_MAXFRAGS for a limit of zero or less); the winner is that leader |
| MpLeader.MarkLeaders | neo/game/MultiplayerGame.cpp:898-935 | FragLeader clears every player's leader flag and sets it on exactly the marked players |
| MpLeader.SameButLeadersTop | neo/game/MultiplayerGame.cpp:869-935 | the leader flags take no part in choosing the leader: views differing only in them mark the same players and name the same leader |
| MpLeader.MarkLeadersIdempotent | neo/game/MultiplayerGame.cpp:898-935 | calling FragLeader again after it has marked the leaders names the same leader and marks the same players |
| MpPhase.ExtendHistory | neo/game/MultiplayerGame.cpp:1296 | entering a phase by an allowed change keeps the phase history one the server can produce |
| MpPhase.AllowedChanges | neo/game/MultiplayerGame.cpp:1196 | no allowed change is to the current phase, as NewState asserts |
| MpPhase.ScheduledAllowed | neo/game/MultiplayerGame.cpp:1611-1615 | a scheduled change (GameOn after a countdown, NextGame after the review pause) is an allowed one |
| MpPhase.GameOnEnts | neo/game/MultiplayerGame.cpp:1212-1249 | entering GameOn keeps the number of client slots, and which hold players |
| MpPhase.GameOnEntsValid | neo/game/MultiplayerGame.cpp:1212-1249 | lining the players up keeps every team 0 or 1 and every tourney rank non-negative |
| MpPhase.GameOnPlayerInRange | neo/game/MultiplayerGame.cpp:1220-1248 | one player lined up keeps its team, and a non-negative tourney rank stays so |
| MpPhase.GameOnScores | neo/game/MultiplayerGame.cpp:1226-1231 | entering GameOn keeps the size of the score table |
| MpPhase.ReviewEnts | neo/game/MultiplayerGame.cpp:1259-1268 | entering GameReview keeps the number of client slots |
| MpPhase.GameOnStartsLevel | neo/game/MultiplayerGame.cpp:1212-1249 | outside a tourney every player starts from fragLimit (last man) or 0, and teammates agree; in a tourney nobody is leader, an unseated player spectates one rank higher, and a seated one that wants to play is in with rank 0 |
| MpPhase.ReviewAllSpectate | neo/game/MultiplayerGame.cpp:1259-1268 | after entering GameReview every player spectates and is no longer forced ready |
| MpPhase.ReviewKeepsWins | neo/game/MultiplayerGame.cpp:1259-1269 | sending everyone to spectate before UpdateWinsLosses does not change who gains a win |
| MpRank.InsertPos | neo/game/MultiplayerGame.cpp:351-388 | the inner loop stops at the first ranked entry the new client beats, or at the end; no entry before it is beaten |
| MpRank.InsertPosFirst | neo/game/MultiplayerGame.cpp:351-388 | that slot is the only one with nothing beaten before it and something beaten at it (or the end) |
| MpRank.RankPrefix | neo/game/MultiplayerGame.cpp:328-394 | every client in the ranking can be ranked |
| MpRank.InsertMembers | neo/game/MultiplayerGame.cpp:379-393 | shifting the new client in adds that client and keeps every other entry |
| MpRank.RankPrefixMembers | neo/game/MultiplayerGame.cpp:328-394 | the ranking holds exactly the clients that can play, are seated in a tourney and are not out in last man standing, each once, and never more than numClients |
| MpRank.InsertNoDuplicates | neo/game/MultiplayerGame.cpp:381-385 | splicing in a client not yet listed keeps the list free of duplicates |
| MpRank.InsertKeepsSorted | neo/game/MultiplayerGame.cpp:377-392 | outside TDM, inserting a client numbered above every ranked one keeps frag counts non-increasing with ties in client order |
| MpRank.RankPrefixSorted | neo/game/MultiplayerGame.cpp:375-378 | outside TDM the ranking is non-increasing in frag count, and equal counts keep ascending client order because insertion needs a strictly greater count |
| MpRespawn.EntityRead | neo/game/MultiplayerGame.cpp:3496 | gameLocal.entities[k] read with no bounds check: outside the array for a negative index, the player slot otherwise |
| MpRespawn.GoneAsWritten | neo/game/MultiplayerGame.cpp:3496 | the seat test as written is undefined for the empty seat -1 and otherwise says the seat holds no player in the game |
| MpRespawn.AbortAsWrittenAgrees | neo/game/MultiplayerGame.cpp:3488-3526 | where CheckAbortGame as written reads no empty seat it does what the guarded version does, and with both seats held it reads none |
| MpRespawn.EmptySeatRead | neo/game/MultiplayerGame.cpp:3491-3500 | with one client wanting to play in a tourney warmup, FillTourneySlots leaves seat 1 at -1 and CheckAbortGame reads gameLocal.entities[-1] |
| MpRespawn.AbortFreesSeats | neo/game/MultiplayerGame.cpp:3488-3526 | in a tourney warmup every seat left is held by a player in the game; a running tourney that goes on has both seats held; another running match that goes on has enough players; an aborted one is in GameReview with nothing scheduled and everyone spectating |
| MpRespawn.SetSpectate | neo/game/MultiplayerGame.cpp:2858 | ServerSpectate keeps the client slots |
| MpRespawn.LastManStep | neo/game/MultiplayerGame.cpp:2897-2960 | the last-man branch keeps the client slots and the score table size |
| MpRespawn.OutOfLives | neo/game/MultiplayerGame.cpp:2921-2957 | marking a player out keeps the client slots and the score table size |
| MpRespawn.RespawnStep | neo/game/MultiplayerGame.cpp:2834-2970 | one iteration keeps the client slots and the score table size |
| MpRespawn.RespawnsUpTo | neo/game/MultiplayerGame.cpp:2832-2971 | the loop keeps the client slots and the score table size |
| MpRespawn.AbortOnlyTrans | neo/game/MultiplayerGame.cpp:2864 | two steps that each change the phase only by an abort to GameReview together do the same |
| MpRespawn.AbortPhase | neo/game/MultiplayerGame.cpp:3503-3525 | CheckAbortGame changes the phase only from a running match to GameReview, clearing the scheduled change |
| MpRespawn.StepPhase | neo/game/MultiplayerGame.cpp:2834-2970 | one iteration of CheckRespawns changes the phase only by such an abort |
| MpRespawn.StepPhaseUpTo | neo/game/MultiplayerGame.cpp:2832-2971 | the iteration for client n-1 changes the phase only by such an abort |
| MpRespawn.RespawnsPhase | neo/game/MultiplayerGame.cpp:2830-2972 | CheckRespawns changes the phase only by aborting a running match to GameReview, and then nothing is scheduled; otherwise the scheduled change stays |
| MpRespawn.VoluntarySpectate | neo/game/MultiplayerGame.cpp:2964-2970 | a player in the game who chooses to spectate has the frag count reset to 0 and spectates |
| MpRespawn.SuddenDeathOnlyLeaders | neo/game/MultiplayerGame.cpp:2843-2866 | in sudden death outside last man and TDM with no end delay running, a player asking back in spectates exactly when not a leader |
| MpRespawn.NoneLeftMeans | neo/game/MultiplayerGame.cpp:2934-2951 | the scan reaches numClients exactly when every player who can play is out |
| MpRespawn.LastManOut | neo/game/MultiplayerGame.cpp:2915-2957 | a last-man player out of lives is marked out and scored LASTMAN_NOLIVES, and spectates exactly when another player who can play is not out |
| MpRespawn.PlayAgainEnts | neo/game/MultiplayerGame.cpp:2798-2823 | SuddenRespawn keeps the client slots |
| MpRespawn.SuddenRespawnLetsBackIn | neo/game/MultiplayerGame.cpp:2798-2823 | after SuddenRespawn, a last-man player with lives who was present is put back in by CheckRespawns and not marked out |
| MpScore.TeamScoreKeepsAgreement | neo/game/MultiplayerGame.cpp:1043-1059 | TeamScore moves every player of the team alike, so teammates who showed the same team score still do |
| MpScore.FragSumBump | neo/game/MultiplayerGame.cpp:1066-1120 | moving one frag count by d moves the total by d |
| MpScore.DeathMovesFragSumByOne | neo/game/MultiplayerGame.cpp:1066-1120 | outside TDM a death moves the total of frag counts by one: up for a kill of another player, down for a suicide, a world death or a lost last-man life |
| MpScore.DeathInTeamPlay | neo/game/MultiplayerGame.cpp:1080-1104 | in TDM a death moves the killer's frags and the killer's team score by one, down for a teamkill or suicide, keeps teammates in agreement and changes no other team score |
| MpScore.WinsGoToWinners | neo/game/MultiplayerGame.cpp:965-1036 | only the winner, and in TDM the winner's teammates, gain a win, exactly one, and nothing else changes |
| MpScore.NoWinnerNoWins | neo/game/MultiplayerGame.cpp:965-1036 | a draw changes nobody's wins |
| MpSnapshot.Clamped | neo/game/MultiplayerGame.cpp:2610-2618 | each value WriteToSnapshot sends lies in its range and is the player's own value when that already lies in it |
| MpSnapshot.EncodeClient | neo/game/MultiplayerGame.cpp:2610-2619 | one client record is 34 bits |
| MpSnapshot.EncodeClients | neo/game/MultiplayerGame.cpp:2608-2620 | the client records take 34 bits a client |
| MpSnapshot.EncodeSnapshot | neo/game/MultiplayerGame.cpp:2600-2621 | the message is the header followed by the client records |
| MpSnapshot.ClientSlice | neo/game/MultiplayerGame.cpp:2649-2656 | the bits of one client record are 34 bits |
| MpSnapshot.DecodeSnapshot | neo/game/MultiplayerGame.cpp:2628-2657 | a message is read exactly when it holds the header and 32 records, giving 32 client records and a phase byte |
| MpSnapshot.EncodeClientsSlice | neo/game/MultiplayerGame.cpp:2608-2620 | client i's record sits at bits 34i to 34i+33 |
| MpSnapshot.FieldAt | neo/game/MultiplayerGame.cpp:2610-2618 | a field written at a position reads back as the value written |
| MpSnapshot.EncodeClientLayout | neo/game/MultiplayerGame.cpp:2610-2619 | the five values sit at bit offsets 0, 8, 16, 23 and 33 of a record |
| MpSnapshot.FieldsOfEncode | neo/game/MultiplayerGame.cpp:2651-2655 | one record reads back as the clamped values written |
| MpSnapshot.SnapshotRoundTrip | neo/game/MultiplayerGame.cpp:2600-2657 | reading a written snapshot gives back the phase, both seats and every client's clamped values |
| MpSnapshot.ClientRoundTrip | neo/game/MultiplayerGame.cpp:2649-2656 | a client record of a written snapshot reads back as its clamped values |
| MpTourney.BestWaiting | neo/game/MultiplayerGame.cpp:1318-1350 | the inner scan of FillTourneySlots returns -1 or a present, unseated player who does not want to spectate |
| MpTourney.BestWaitingIsBest | neo/game/MultiplayerGame.cpp:1318-1350 | the scan returns -1 exactly when nobody waits; otherwise nobody waiting has a higher rank or an equal rank and an earlier spawn, and of equally placed players the highest client number wins |
| MpTourney.FillSlotsSeats | neo/game/MultiplayerGame.cpp:1305-1353 | FillTourneySlots keeps an occupied seat, fills an empty one with a waiting player other than the other seat's, leaves it -1 only when nobody waits, and never seats one player twice |
| MpTourney.FillSlotsPicksBest | neo/game/MultiplayerGame.cpp:1336-1351 | the player seated in an empty first seat is one no waiting player is preferred to |
| MpTourney.NextInLine | neo/game/MultiplayerGame.cpp:1376-1394 | the inner scan of UpdateTourneyLine returns -1 or a waiting player ranked under the previous place's rank |
| MpTourney.NextInLineIsFirstHighest | neo/game/MultiplayerGame.cpp:1376-1398 | the scan returns -1 exactly when nobody waits under the bound; otherwise the first waiting client of the highest rank under it |
| MpTourney.LineFrom | neo/game/MultiplayerGame.cpp:1374-1408 | every TOURNEYLINE message goes to a waiting player |
| MpTourney.TourneyLine | neo/game/MultiplayerGame.cpp:1363-1409 | UpdateTourneyLine sends its messages only to waiting players, and none outside a tourney |
| MpTourney.LineFromShape | neo/game/MultiplayerGame.cpp:1374-1408 | the line numbers the places 1, 2, ... in order, each to the first waiting player of its rank, and the ranks strictly decrease |
| MpTourney.LineCons | neo/game/MultiplayerGame.cpp:1389-1407 | putting the first waiting player of the highest rank under the bound in front of a line shaped under its rank gives a line shaped under the bound |
| MpTourney.PlayersBelowSize | neo/game/MultiplayerGame.cpp:1374 | fewer players than clients scanned |
| MpTourney.InLineBound | neo/game/MultiplayerGame.cpp:1374 | the players still in line are never more than numClients, the places the outer loop offers |
| MpTourney.LineFromComplete | neo/game/MultiplayerGame.cpp:1374-1408 | every waiting player under the bound is told a place shared with its rank, as long as places remain for everyone in line |
| MpTourney.TourneyLineComplete | neo/game/MultiplayerGame.cpp:1363-1409 | in a tourney every waiting player's rank gets a TOURNEYLINE message |
| MpTourney.Cycled | neo/game/MultiplayerGame.cpp:1435-1451 | CycleTourneyPlayers keeps the client slots |
| MpTourney.CycleSeatsPlayers | neo/game/MultiplayerGame.cpp:1416-1453 | after CycleTourneyPlayers exactly the seated players are in the game, nothing but spectating changes, the last winner keeps the first seat if still a player, and both seats hold distinct players or -1 |
| MpTypes.GameStateIndex | neo/game/MultiplayerGame.cpp:2605 | a phase is sent as one of the seven enumeration values |
| MpTypes.GameStateOf | neo/game/MultiplayerGame.cpp:2633 | the byte read names a phase exactly when it is below 7, and then that phase's enumeration value |
| MpTypes.GameStateIndexRoundTrip | neo/game/MultiplayerGame.cpp:2605-2637 | a phase written as its value reads back as itself |
| MpVote.StartMarks | neo/game/MultiplayerGame.cpp:3128-3138 | ServerStartVote keeps the size of the score table |
| MpVote.CountVotesPrefix | neo/game/MultiplayerGame.cpp:1542-1553 | counting looks only at clients below numClients |
| MpVote.CountVotesChange | neo/game/MultiplayerGame.cpp:3299-3308 | changing one player's mark moves the counts of the old and new marks by one |
| MpVote.StartMarksCounts | neo/game/MultiplayerGame.cpp:3122-3138 | after ServerStartVote only the caller votes yes and nobody votes no |
| MpVote.StartVoteTallies | neo/game/MultiplayerGame.cpp:3122-3138 | a vote called by a player starts with yesVotes 1 and noVotes 0, matching the marks |
| MpVote.CastKeepsTally | neo/game/MultiplayerGame.cpp:3292-3308 | an accepted ballot from a waiting player keeps yesVotes and noVotes equal to the number of yes and no marks |
| MpVote.VotersSplit | neo/game/MultiplayerGame.cpp:1541-1553 | numVoters is the number of players marked yes, no or waiting |
| MpVote.CheckVoteOutcomes | neo/game/MultiplayerGame.cpp:1519-1573 | CheckVote does nothing without a vote, runs a passed vote once its time comes, aborts when nobody can vote, passes iff more than half the voters said yes, and otherwise fails iff it timed out or at least half said no |
| MpVote.ResultLine | neo/game/MultiplayerGame.cpp:3206-3235 | a chat line is added exactly for a failure, a pass or an abort |
| MpVote.VoteAfterUpdate | neo/game/MultiplayerGame.cpp:3200-3235 | ClientUpdateVote clears the vote only on a client, after a failure, a reset or an abort, and otherwise keeps it |
| MpRun.Entered | neo/game/MultiplayerGame.cpp:1190-1297 | NewState on values: the phase is entered and logged; the client slots, score table size, seats and schedule time stay |
| MpRun.Respawned | neo/game/MultiplayerGame.cpp:2830-2972 | CheckRespawns on values: the client slots, the score table size, the schedule time and the end delay stay |
| MpRun.LeaveAfter | neo/game/MultiplayerGame.cpp:1601-1605 | the first frame's change keeps the client slots and the score table size |
| MpRun.SwitchAfter | neo/game/MultiplayerGame.cpp:1611-1615 | the scheduled change keeps the client slots and the score table size |
| MpRun.Pinged | neo/game/MultiplayerGame.cpp:1618-1625 | every client's entry takes its reported ping, every other entry and the players stay |
| MpRun.EndDelay | neo/game/MultiplayerGame.cpp:1706-1719 | the end delay keeps the client slots and the score table size |
| MpRun.Marked | neo/game/MultiplayerGame.cpp:898-935 | marking the leaders keeps the score table and exactly the client slots that hold players |
| MpRun.TimeUpAfter | neo/game/MultiplayerGame.cpp:1732-1744 | the time limit's outcome keeps the client slots and the score table size |
| MpRun.PlayAgain | neo/game/MultiplayerGame.cpp:1723-1729 | SuddenRespawn and the cancelled delay keep the client slots and the score table |
| MpRun.GameOnAfter | neo/game/MultiplayerGame.cpp:1704-1747 | GAMEON's rules keep the client slots and the score table size |
| MpRun.SuddenDeathAfter | neo/game/MultiplayerGame.cpp:1748-1771 | SUDDENDEATH's rules keep the client slots and the score table size |
| MpRun.WarmupAfter | neo/game/MultiplayerGame.cpp:1671-1682 | WARMUP's rule keeps the client slots and the score table size |
| MpRun.PutBack | neo/game/MultiplayerGame.cpp:1655-1667 | the put-back loop keeps the client slots and the score table size |
| MpRun.Cycle | neo/game/MultiplayerGame.cpp:1416-1453 | cycling the tourney seats keeps the client slots and the score table |
| MpRun.NextGameAfter | neo/game/MultiplayerGame.cpp:1641-1670 | NEXTGAME's rule keeps the client slots and the score table size |
| MpRun.PhaseAfter | neo/game/MultiplayerGame.cpp:1629-1772 | the per-phase part keeps the client slots and the score table size |
| MpRun.StartAfter | neo/game/MultiplayerGame.cpp:1601-1609 | the start of Run keeps the client slots and the score table size |
| MpRun.RunAfter | neo/game/MultiplayerGame.cpp:1590-1773 | a whole Run frame keeps the client slots and the score table size |
| BitMsg.WriteBits | neo/game/MultiplayerGame.cpp:2612-2619 | WriteBits puts |numBits| bits into the message |
| BitMsg.ReadBits | neo/game/MultiplayerGame.cpp:2651-2655 | ReadBits yields a value exactly when the message holds the field's bits |
| BitMsg.UValBits | neo/game/MultiplayerGame.cpp:2612-2655 | the unsigned bits of a value in range read back as that value |
| BitMsg.WriteReadBits | neo/game/MultiplayerGame.cpp:2612-2655 | every value in a field's range, signed fields sign-extended, reads back as written; a field of width w is w bits, bounded by the positive power 2^w |
| BitMsg.ReadBitsAfter | neo/game/MultiplayerGame.cpp:2605-2655 | a field written after other fields reads back at its offset, whatever follows |
| Wrappers.ClampInt | neo/game/MultiplayerGame.cpp:2611-2617 | the value sent lies in [lo, hi], equals the input when that lies in range, and is the nearer bound otherwise |
| MpGame.ShiftIn | neo/game/MultiplayerGame.cpp:381-385 | entries j to num-1 move up one slot, the new client goes in at j, and the rest of the array is untouched |
| MpGame.MultiplayerGame.constructor | neo/game/MultiplayerGame.cpp:236-278 | a new match is INACTIVE with nothing scheduled, an all-zero score table, empty seats, no vote, no last winner and an empty chat history |
| MpGame.MultiplayerGame.Clear | neo/game/MultiplayerGame.cpp:236-278 | Clear returns to INACTIVE with nothing scheduled, zeroes every score table entry, empties both seats, cancels the vote, forgets the last winner and the limits, and blanks every chat line's text |
| MpGame.MultiplayerGame.ClearPhaseFields | neo/game/MultiplayerGame.cpp:240-267 | the phase, schedule, match start, last winner and end delay fields are reset |
| MpGame.MultiplayerGame.ClearVoteFields | neo/game/MultiplayerGame.cpp:243-276 | no vote, no vote deadlines and no vote text |
| MpGame.MultiplayerGame.ClearScores | neo/game/MultiplayerGame.cpp:251 | every score table entry is all zero |
| MpGame.MultiplayerGame.ClearChatLines | neo/game/MultiplayerGame.cpp:270-273 | every chat line's text is blanked and its fade kept |
| MpGame.MultiplayerGame.ServerClientConnect | neo/game/MultiplayerGame.cpp:198-201 | only the new client's score table entry changes, to all zero |
| MpGame.MultiplayerGame.SpawnPlayer | neo/game/MultiplayerGame.cpp:208-229 | the entry is zeroed; on the server the ingame flag survives, the spawn time is stamped and the tourney rank is 1 in a running tourney, 0 otherwise |
| MpGame.MultiplayerGame.Insert | neo/game/MultiplayerGame.cpp:359-379 | the insertion test is the ranking order: in TDM a strictly greater team score, at equal team scores the lower team number first, and between teammates the greater frag count; otherwise a strictly greater frag count |
| MpGame.MultiplayerGame.UpdatePlayerRanks | neo/game/MultiplayerGame.cpp:318-397 | the ranked list is the insertion-sorted list of the rankable clients |
| MpGame.MultiplayerGame.RankOne | neo/game/MultiplayerGame.cpp:328-393 | one iteration extends the sorted prefix by client i exactly when it is rankable |
| MpGame.MultiplayerGame.InsertSlot | neo/game/MultiplayerGame.cpp:351-380 | the inner loop stops at the first ranked client the new one beats, or at the end |
| MpGame.MultiplayerGame.NumActualClients | neo/game/MultiplayerGame.cpp:664-691 | the counts are the players (or those who can play) and the players who can play on each team |
| MpGame.MultiplayerGame.EnoughClientsToPlay | neo/game/MultiplayerGame.cpp:698-710 | the answer is the rule: two players who can play, and in TDM one on each team |
| MpGame.MultiplayerGame.AllPlayersReady | neo/game/MultiplayerGame.cpp:717-762 | the answer is the readiness rule for the game type and warmup setting |
| MpGame.MultiplayerGame.HighScore | neo/game/MultiplayerGame.cpp:865-896 | the first loop of FragLeader yields the highest contender score and stores each contender's score |
| MpGame.MultiplayerGame.FragLeader | neo/game/MultiplayerGame.cpp:858-958 | the leader flags become the marking of the old match and the result is its leader |
| MpGame.MultiplayerGame.FragLimitHit | neo/game/MultiplayerGame.cpp:771-831 | the result is the frag limit winner of the old match, and the leader flags are remarked |
| MpGame.MultiplayerGame.TimeLimitHit | neo/game/MultiplayerGame.cpp:838-849 | the limit is hit exactly when one is set and the match has lasted that many minutes |
| MpGame.MultiplayerGame.UpdateWinsLosses | neo/game/MultiplayerGame.cpp:965-1036 | the score table gains the wins the winner earns and the winner becomes the last winner |
| MpGame.MultiplayerGame.TeamScore | neo/game/MultiplayerGame.cpp:1043-1059 | the score table becomes the team-scored table |
| MpGame.MultiplayerGame.PlayerDeath | neo/game/MultiplayerGame.cpp:1066-1120 | the score table becomes the death-scored table |
| MpGame.MultiplayerGame.PlayerVote | neo/game/MultiplayerGame.cpp:1163-1166 | only the client's vote mark changes |
| MpGame.MultiplayerGame.ServerSpectate | neo/game/MultiplayerGame.cpp:2858 | only player i's spectating flag changes |
| MpGame.MultiplayerGame.ReviewPlayers | neo/game/MultiplayerGame.cpp:1259-1268 | every player is no longer forced ready and spectates |
| MpGame.MultiplayerGame.EnterReview | neo/game/MultiplayerGame.cpp:1255-1271 | GameReview is entered with nothing scheduled, everyone spectating and the winner credited |
| MpGame.MultiplayerGame.StartPlayers | neo/game/MultiplayerGame.cpp:1212-1249 | the players and the score table are lined up for GameOn |
| MpGame.MultiplayerGame.LineUp | neo/game/MultiplayerGame.cpp:1214-1248 | one player's new entity and score entry for GameOn |
| MpGame.MultiplayerGame.EnterGameOn | neo/game/MultiplayerGame.cpp:1201-1254 | the match clock starts at `time`, no end delay runs, the frag limit is recorded and the players are lined up |
| MpGame.MultiplayerGame.NewState | neo/game/MultiplayerGame.cpp:1190-1297 | the new phase is entered and logged; GameOn lines up the players, GameReview credits the winner, Countdown fixes the warmup end; everything else stays; the whole match becomes what MpRun.Entered says |
| MpGame.MultiplayerGame.BestWaitingScan | neo/game/MultiplayerGame.cpp:1318-1350 | the inner scan returns the best waiting player or -1 |
| MpGame.MultiplayerGame.FillTourneySlots | neo/game/MultiplayerGame.cpp:1305-1353 | the seats become the filled seats |
| MpGame.MultiplayerGame.NextInLineScan | neo/game/MultiplayerGame.cpp:1376-1394 | the inner scan returns the first waiting player of the highest rank under the bound |
| MpGame.MultiplayerGame.UpdateTourneyLine | neo/game/MultiplayerGame.cpp:1363-1409 | the messages sent are the tourney line |
| MpGame.MultiplayerGame.CycleTourneyPlayers | neo/game/MultiplayerGame.cpp:1416-1453 | the last winner keeps a seat, the seats are filled, exactly the seated players play, and the new line is sent |
| MpGame.MultiplayerGame.SeatPlayers | neo/game/MultiplayerGame.cpp:1435-1451 | the seated players play and every other player spectates |
| MpGame.MultiplayerGame.FreeGoneSeats | neo/game/MultiplayerGame.cpp:3491-3500 | each seat whose player left or spectates becomes -1 |
| MpGame.MultiplayerGame.CheckAbortGame | neo/game/MultiplayerGame.cpp:3488-3526 | the match changes as the guarded abort check says, and a phase change is logged |
| MpGame.MultiplayerGame.NoneLeftNow | neo/game/MultiplayerGame.cpp:2934-2951 | the scan reports that nobody who can play has lives left |
| MpGame.MultiplayerGame.LastManRespawn | neo/game/MultiplayerGame.cpp:2897-2960 | the last-man branch for one player |
| MpGame.MultiplayerGame.LoseLastLife | neo/game/MultiplayerGame.cpp:2921-2957 | a player out of lives is marked out, scored and sent to spectate unless nobody is left |
| MpGame.MultiplayerGame.TourneyRespawn | neo/game/MultiplayerGame.cpp:2878-2896 | a seated player comes back in while a match can be joined; in warmup an unseated one first fills the seats and comes in once seated |
| MpGame.MultiplayerGame.WantedRespawn | neo/game/MultiplayerGame.cpp:2841-2963 | the branch for a player who wants back in or is forced is the one-iteration step |
| MpGame.MultiplayerGame.RespawnClient | neo/game/MultiplayerGame.cpp:2834-2970 | one iteration of CheckRespawns is the one-iteration step |
| MpGame.MultiplayerGame.CheckRespawns | neo/game/MultiplayerGame.cpp:2830-2972 | the match becomes the result of the steps over every client (MpRun.Respawned); the phase only changes by an abort to GameReview, and the phase history stays allowed |
| MpGame.MultiplayerGame.ClearChatData | neo/game/MultiplayerGame.cpp:2506-2511 | no chat line is shown and the chat is marked changed |
| MpGame.MultiplayerGame.AddChatLine | neo/game/MultiplayerGame.cpp:2518-2539 | the ring gains the line with a full fade, and the change time is `time` |
| MpGame.MultiplayerGame.FadeChat | neo/game/MultiplayerGame.cpp:2551-2566 | every shown line fades one step and those below zero stop being shown |
| MpGame.MultiplayerGame.ChatRowsNow | neo/game/MultiplayerGame.cpp:2567-2586 | the rows are the text and alpha of the shown lines, oldest first |
| MpGame.MultiplayerGame.DrawChat | neo/game/MultiplayerGame.cpp:2546-2589 | once CHAT_FADE_TIME has passed the lines fade a step; rows are produced only when the chat changed |
| MpGame.MultiplayerGame.ClientUpdateVote | neo/game/MultiplayerGame.cpp:3185-3241 | with a vote in progress the status' chat line is added; a client drops the vote on a failure, reset or abort and takes the server's counts |
| MpGame.MultiplayerGame.ServerStartVote | neo/game/MultiplayerGame.cpp:3115-3139 | the caller votes yes, every other player waits, the tallies are 1 and 0 and agree with the marks, and the vote times out 20 s later |
| MpGame.MultiplayerGame.MarkVoters | neo/game/MultiplayerGame.cpp:3128-3138 | the vote marks become the start marks |
| MpGame.MultiplayerGame.ClientStartVote | neo/game/MultiplayerGame.cpp:3146-3178 | the vote text is kept, its chat line added, the local caller counts as voted, and a client shows a restart vote with one yes |
| MpGame.MultiplayerGame.CastVote | neo/game/MultiplayerGame.cpp:3266-3311 | the server counts a ballot only from a waiting client while a vote runs, which keeps the tallies equal to the marks |
| MpGame.MultiplayerGame.CountVotersNow | neo/game/MultiplayerGame.cpp:1541-1553 | the count is the number of players with a mark other than NONE |
| MpGame.MultiplayerGame.CheckVote | neo/game/MultiplayerGame.cpp:1519-1573 | the vote, its execution time and the chat ring become what MpRun.VoteAfter says: the CheckVote decision applied; the tallies stay |
| MpGame.MultiplayerGame.ExecStep | neo/game/MultiplayerGame.cpp:1528-1538 | a passed vote is cleared once its execution time has passed |
| MpGame.MultiplayerGame.TallyStep | neo/game/MultiplayerGame.cpp:1554-1572 | the decision on an open vote: abort, pass with execution 2 s later, fail, or stay open |
| MpGame.MultiplayerGame.WriteToSnapshot | neo/game/MultiplayerGame.cpp:2600-2621 | the message is the encoded snapshot of the phase, seats and score table |
| MpGame.MultiplayerGame.WriteClient | neo/game/MultiplayerGame.cpp:2610-2619 | one client's record is its encoding |
| MpGame.MultiplayerGame.ReadFromSnapshot | neo/game/MultiplayerGame.cpp:2628-2657 | a new phase is taken over (GameOn starts the clock and records the frag limit), then the seats and every client's five values; a short message changes nothing |
| MpGame.MultiplayerGame.ReadClient | neo/game/MultiplayerGame.cpp:2651-2655 | one record's five fields as read in order |
| MpGame.MultiplayerGame.ReadClients | neo/game/MultiplayerGame.cpp:2649-2656 | every client's entry takes the values of its record |
| MpGame.MultiplayerGame.ReadInto | neo/game/MultiplayerGame.cpp:2651-2655 | only client i's entry changes, to the values of its record |
| MpGame.MultiplayerGame.SuddenRespawn | neo/game/MultiplayerGame.cpp:2798-2823 | in last man standing every player who can play and is not out may come back in |
| MpGame.MultiplayerGame.EnterGame | neo/game/MultiplayerGame.cpp:3921-3934 | the client is in the game from now on, so it can play exactly when it does not want to spectate |
| MpGame.MultiplayerGame.UpdatePings | neo/game/MultiplayerGame.cpp:1618-1625 | every client's ping becomes the reported one and nothing else changes |
| MpGame.MultiplayerGame.EndAfterDelay | neo/game/MultiplayerGame.cpp:1706-1719 | the match becomes MpRun.EndDelay's: the end delay starts FRAGLIMIT_DELAY ms from now unless already running, and once it has passed the match goes to GameReview crediting the winner; the phase history stays allowed |
| MpGame.MultiplayerGame.StartSuddenDeath | neo/game/MultiplayerGame.cpp:1721-1731 | a frag limit lost during the delay cancels it, lets the last man players back in (MpRun.PlayAgain) and enters sudden death; nothing else changes; the phase history stays allowed |
| MpGame.MultiplayerGame.TimeUp | neo/game/MultiplayerGame.cpp:1732-1744 | the match becomes MpRun.TimeUpAfter's: the leaders are marked, then the frag leader wins, or sudden death starts on a tie; the phase history stays allowed |
| MpGame.MultiplayerGame.GameOnTick | neo/game/MultiplayerGame.cpp:1704-1747 | the whole match becomes MpRun.GameOnAfter's; the phase history stays allowed and only grows |
| MpGame.MultiplayerGame.SuddenDeathTick | neo/game/MultiplayerGame.cpp:1748-1771 | the whole match becomes MpRun.SuddenDeathAfter's; the phase history stays allowed and only grows |
| MpGame.MultiplayerGame.WarmupTick | neo/game/MultiplayerGame.cpp:1671-1682 | the whole match becomes MpRun.WarmupAfter's: once everyone is ready the countdown starts and GameOn is scheduled g_countDown seconds later; otherwise nothing changes; the phase history stays allowed |
| MpGame.MultiplayerGame.NextGameTick | neo/game/MultiplayerGame.cpp:1641-1670 | the whole match becomes MpRun.NextGameAfter's: WARMUP is entered, a tourney cycles its seats, and the players are put back in; the phase history stays allowed |
| MpGame.MultiplayerGame.PutBackPlayers | neo/game/MultiplayerGame.cpp:1655-1667 | the match becomes MpRun.PutBack's from client 0: each player who does not want to spectate, in client order, goes through CheckRespawns; the phase history stays allowed |
| MpGame.MultiplayerGame.SwitchScheduled | neo/game/MultiplayerGame.cpp:1611-1615 | the match becomes MpRun.SwitchAfter's: once its time has passed the scheduled phase is entered and nothing is scheduled; before that nothing changes |
| MpGame.MultiplayerGame.RunPhase | neo/game/MultiplayerGame.cpp:1629-1772 | the whole match becomes MpRun.PhaseAfter's for the phase it is in; the phase history stays allowed and only grows |
| MpGame.MultiplayerGame.LeaveInactive | neo/game/MultiplayerGame.cpp:1601-1605 | the match becomes MpRun.LeaveAfter's: the first frame enters WARMUP from INACTIVE; otherwise nothing changes |
| MpGame.MultiplayerGame.RunStart | neo/game/MultiplayerGame.cpp:1601-1609 | the match becomes MpRun.StartAfter's (INACTIVE left, then every client's respawn checked) and the vote MpRun.VoteAfter's over the clients as they stood; the tallies stay |
| MpGame.MultiplayerGame.VoteThenRespawns | neo/game/MultiplayerGame.cpp:1607-1609 | the vote becomes MpRun.VoteAfter's over the clients as they stood, then the match MpRun.Respawned's with no spectator |
| MpGame.MultiplayerGame.RefreshPings | neo/game/MultiplayerGame.cpp:1618-1625 | once the time is past pingUpdateTime every client's ping is refreshed (MpRun.Pinged) and the next refresh is due 1000 ms later; otherwise nothing changes |
| MpGame.MultiplayerGame.RunRest | neo/game/MultiplayerGame.cpp:1611-1772 | the match becomes the scheduled change, the ping refresh when due and the per-phase part, in that order, as MpRun says |
| MpGame.MultiplayerGame.Run | neo/game/MultiplayerGame.cpp:1590-1773 | the whole match becomes MpRun.RunAfter's, the ping refresh falls due as RefreshPings says, and the vote becomes MpRun.VoteAfter's; every phase change Run makes is an allowed one, and the scheduled change stays one Run may make |
| RoqBytes.LE16 | neo/renderer/Cinematic.cpp:1957 | a 16-bit field is below 65536, with the first byte its low byte and the second its high byte |
| RoqBytes.LE24 | neo/renderer/Cinematic.cpp:1958 | the 24-bit chunk size is below 2^24, with its three bytes low first |
| RoqBytes.Bytes16 | neo/renderer/Cinematic.cpp:1957 | a 16-bit value takes two bytes |
| RoqBytes.Bytes24 | neo/renderer/Cinematic.cpp:1958 | a 24-bit value takes three bytes |
| RoqBytes.LittleEndianRoundTrip | neo/renderer/Cinematic.cpp:1957-1959 | the bytes of a 16- or 24-bit value read back as that value |
| RoqBytes.SignedChar | neo/renderer/Cinematic.cpp:1960-1961 | `(char)b` is the byte read as a signed value in -128..127, equal to it below 128 and 256 less otherwise |
| RoqFormat.ParseChunk | neo/renderer/Cinematic.cpp:1957-1961 | a chunk header gives a 16-bit id, a 24-bit size, a 16-bit argument, and two motion offsets that are its bytes 7 and 6 as signed chars |
| RoqFormat.EncodeChunk | neo/renderer/Cinematic.cpp:1957-1961 | a chunk header is 8 bytes |
| RoqFormat.ChunkRoundTrip | neo/renderer/Cinematic.cpp:1957-1961 | a written chunk header reads back as its id, size and argument, the offsets being the argument's high and low byte as signed chars |
| RoqFormat.ParseFileHeader | neo/renderer/Cinematic.cpp:1992-2010 | RoQ_init takes the rate from bytes 6-7 (30 when zero) and the first chunk's id, size and argument from bytes 8-9, 10-12 and 14-15 |
| RoqFormat.FileHeaderHoldsChunk | neo/renderer/Cinematic.cpp:1998-2009 | the first chunk's fields sit where a chunk header's would, and the rate is never zero |
| RoqFormat.ParseQuadInfo | neo/renderer/Cinematic.cpp:1473-1476 | the picture sizes are 16-bit values |
| RoqFormat.ScreenDeltaIsFrame | neo/renderer/Cinematic.cpp:1481-1486 | screenDelta is one frame of ysize rows, and the image holds two frames |
| RoqFormat.CodebookCounts | neo/renderer/Cinematic.cpp:1162-1176 | a codebook holds 1 to 256 2x2 entries and an even count up to 512 of 4x4 halves |
| RoqFormat.CodebookFlags | neo/renderer/Cinematic.cpp:1162-1176 | a codebook's argument is a 16-bit value |
| RoqFormat.CodebookCountsRoundTrip | neo/renderer/Cinematic.cpp:1162-1176 | the counts come back from the argument, except that 256 2x2 and no 4x4 entries read back as a full codebook; a full codebook is written as 0 |
| RoqFormat.CodebookFits | neo/renderer/Cinematic.cpp:176-178 | the counts keep decodeCodeBook inside the vq2, vq4 and vq8 tables and within the chunk it reads |
| RoqColor.YY | neo/renderer/Cinematic.cpp:172 | ROQ_YY_tab's entry is a 14-bit value |
| RoqColor.YYIsOr | neo/renderer/Cinematic.cpp:172 | the two shifted parts of the entry do not overlap, so the `|` is a sum |
| RoqColor.YYIncreasing | neo/renderer/Cinematic.cpp:172 | the luma table increases from 0 to 0x3fff |
| RoqColor.Clamp | neo/renderer/Cinematic.cpp:1081-1104 | a channel is limited to 0..hi and kept when already inside |
| RoqColor.Pack565RoundTrip | neo/renderer/Cinematic.cpp:1106 | packing three RGB565 channels into 16 bits is a bijection |
| RoqColor.YuvToRgb | neo/renderer/Cinematic.cpp:1073-1107 | yuv_to_rgb fits an unsigned short whose fields are the clamped channels |
| RoqColor.Pack888RoundTrip | neo/renderer/Cinematic.cpp:1147 | packing three bytes into 24 bits is a bijection |
| RoqColor.YuvToRgb24 | neo/renderer/Cinematic.cpp:1114-1148 | yuv_to_rgb24 has red in the low byte, then green, then blue, the top byte clear |
| RoqColor.ShiftClampMonotone | neo/renderer/Cinematic.cpp:1118-1145 | a shift and a clamp never turn a larger sum into a smaller channel |
| RoqColor.BrighterLuma | neo/renderer/Cinematic.cpp:1114-1148 | a higher luma byte with the same chroma never darkens a channel of yuv_to_rgb24 |
| RoqColor.BrighterLuma565 | neo/renderer/Cinematic.cpp:1073-1107 | a higher luma byte with the same chroma never darkens a channel of yuv_to_rgb |
| RoqStream.AsWrittenLetsOverrunThrough | neo/renderer/Cinematic.cpp:1963-1972 | a 65536-byte chunk passes the guard as written, and reading it with the next header takes 65544 bytes into the 65536-byte buffer |
| RoqStream.Stops | neo/renderer/Cinematic.cpp:1963-1972 | a header the corrected guard lets through leaves the next read inside the chunk buffer |
| RoqStream.GuardsDiffer | neo/renderer/Cinematic.cpp:1963 | the corrected guard stops whatever the guard as written stops, and more exactly the chunks of 65529 to 65536 bytes |
| RoqStream.LayoutOf | neo/renderer/Cinematic.cpp:1471-1497 | readQuadInfo's layout is one the rest of the decoder accepts, with the picture's sizes |
| RoqStream.LargePictureOverrunsLists | neo/renderer/Cinematic.cpp:1436-1464 | for a 1024x512 picture setupQuad lists 40960 quads and its end marker reaches past the 32768 entries of each quad list |
| RoqStream.FittingPictureStaysInLists | neo/renderer/Cinematic.cpp:1436-1464 | for a picture that fits, every quad setupQuad lists and the end marker lie inside the lists |
| RoqStream.FramesDue | neo/renderer/Cinematic.cpp:437-442 | no frames are due before the start, and then every frame whose time has come and no more |
| RoqStream.FramesDueMonotone | neo/renderer/Cinematic.cpp:437 | a later time is never fewer frames in |
| RoqCodebook.Entry2 | neo/renderer/Cinematic.cpp:1219-1231 | a 2x2 entry is four words made from six bytes |
| RoqCodebook.Vq2Pixel | neo/renderer/Cinematic.cpp:1219-1231 | in the filled 2x2 table, pixel (r, c) of entry i is luma byte 2r+c of its six bytes converted with the entry's two chroma bytes |
| RoqCodebook.Row4 | neo/renderer/Cinematic.cpp:1032-1044 | one VQ2TO4 pass puts four words per row into the 4x4 table |
| RoqCodebook.Doubled | neo/renderer/Cinematic.cpp:1032-1044 | every word twice over: word k of the result is word k/2 of the input |
| RoqCodebook.FourFromTwos | neo/renderer/Cinematic.cpp:1236-1245 | 4x4 entry e is a 2x2 grid of 2x2 entries, quarter (r/2, c/2) being the one named by the input byte after the 2x2 entries' bytes |
| RoqCodebook.FourAtHalf | neo/renderer/Cinematic.cpp:1238-1244 | the same for one half-entry of the 4x4 table built from two named 2x2 entries |
| RoqCodebook.Row4At | neo/renderer/Cinematic.cpp:1032-1044 | word c of a row is the first entry's for c < 2 and the second's after |
| RoqCodebook.EightIsFourDoubled | neo/renderer/Cinematic.cpp:1236-1245 | 8x8 entry e is 4x4 entry e with every pixel doubled across and down |
| RoqCodebook.EightAtHalf | neo/renderer/Cinematic.cpp:1238-1244 | the same for one half-entry of each table |
| RoqSetup.Written | neo/renderer/Cinematic.cpp:1417-1418 | writing a run of entries keeps the list length |
| RoqSetup.WrittenAt | neo/renderer/Cinematic.cpp:1417-1418 | an entry of a written list comes from the run inside it and from the old list elsewhere |
| RoqSetup.WrittenConcat | neo/renderer/Cinematic.cpp:1417-1418 | writing one run and then the next right after it is writing both |
| RoqSetup.Nulled | neo/renderer/Cinematic.cpp:1459-1463 | the end marker sets entries lo to hi-1 to NULL and keeps the others |
| RoqSetup.RecurseQuad | neo/renderer/Cinematic.cpp:1391-1429 | recurseQuad writes the offsets of the recorded quads of the square, a quad before its quarters, into both lists from onQuad on, the second list screenDelta further on, and advances onQuad by their number; the rest of the lists is untouched |
| RoqSetup.RecurseQuarters | neo/renderer/Cinematic.cpp:1421-1428 | the four recursive calls write the quarters' quads one after the other |
| RoqSetup.WrittenTwice | neo/renderer/Cinematic.cpp:1424-1427 | two adjacent writes are one write of both |
| RoqSetup.TwoQuarters | neo/renderer/Cinematic.cpp:1424-1427 | two of the recursive calls write both quarters' quads in turn |
| RoqSetup.RecordQuad | neo/renderer/Cinematic.cpp:1412-1419 | a quad inside the picture and no larger than MAXSIZE is written at onQuad in both lists; any other changes nothing |
| RoqSetup.SetupQuad | neo/renderer/Cinematic.cpp:1436-1464 | setupQuad lists every 16x16 block's quads row by row from entry 0, at most numQuadCels - 64 of them, and NULLs the 64 entries from numQuadCels - 64 on; everything between keeps its old value |
| RoqSetup.EndMarker | neo/renderer/Cinematic.cpp:1459-1463 | entries lo to hi-1 of both lists become NULL and nothing else changes |
| RoqSetup.SetupRow | neo/renderer/Cinematic.cpp:1452-1455 | one block row's blocks are listed after the rows above it |
| RoqSetup.SetupBlock | neo/renderer/Cinematic.cpp:1454 | one block's quads are listed after the blocks before it |
| RoqQuad.Here | neo/renderer/Cinematic.cpp:1412-1419 | a square lists itself exactly when it is recorded |
| RoqQuad.QuadsOfParts | neo/renderer/Cinematic.cpp:1412-1428 | a square above MINSIZE lists itself when recorded, then its four quarters in order |
| RoqQuad.QuadsOfSplit | neo/renderer/Cinematic.cpp:1412-1428 | the same, with the quarters taken together |
| RoqQuad.Offsets | neo/renderer/Cinematic.cpp:1415 | one offset for each quad |
| RoqQuad.Shifted | neo/renderer/Cinematic.cpp:1418 | the second list has one entry for each entry of the first |
| RoqQuad.OffsetsAt | neo/renderer/Cinematic.cpp:1415-1417 | entry k of the offsets is quad k's scroff |
| RoqQuad.ShiftedAt | neo/renderer/Cinematic.cpp:1418 | entry k of the second list is entry k of the first plus screenDelta |
| RoqQuad.QuadsRecorded | neo/renderer/Cinematic.cpp:1391-1429 | recurseQuad lists only quads inside the picture, of size 8 or 4, inside the square it was called on, so a 16x16 block is never listed itself |
| RoqQuad.FrameRecorded | neo/renderer/Cinematic.cpp:1451-1455 | every quad of setupQuad's list is inside the picture and 8x8 or 4x4 |
| RoqQuad.Fit | neo/renderer/Cinematic.cpp:1412 | at most k of k cells end within the bound |
| RoqQuad.IndFit | neo/renderer/Cinematic.cpp:1412 | a quad is recorded exactly when it fits both ways |
| RoqQuad.CountIsLength | neo/renderer/Cinematic.cpp:1391-1429 | the number of quads recurseQuad lists is its count |
| RoqQuad.Count8 | neo/renderer/Cinematic.cpp:1412-1428 | an 8x8 square counts itself when recorded and the 4x4 quarters inside the picture |
| RoqQuad.Count16 | neo/renderer/Cinematic.cpp:1412-1428 | a 16x16 block counts its 8x8 and 4x4 quads inside the picture |
| RoqQuad.RowCount | neo/renderer/Cinematic.cpp:1452-1455 | a block row counts the 8x8 and 4x4 cells of its columns times those of the row |
| RoqQuad.FrameCount | neo/renderer/Cinematic.cpp:1451-1455 | the whole list counts the 8x8 and 4x4 cells of the columns times those of the rows |
| RoqQuad.CellsBound | neo/renderer/Cinematic.cpp:1445-1447 | the 8x8 and 4x4 cells of a picture never outnumber numQuadCels - 64, and meet it exactly when both sides are multiples of 8 |
| RoqQuad.SetupCount | neo/renderer/Cinematic.cpp:1436-1464 | setupQuad lists every whole 8x8 and 4x4 cell of the picture, never more than numQuadCels - 64 and exactly that many when both sides are multiples of 8 |
| RoqQuad.GroupedAt | neo/renderer/Cinematic.cpp:1412-1428 | group k of a grouped list sits at entries 5k to 5k+4 |
| RoqQuad.Group8 | neo/renderer/Cinematic.cpp:1412-1428 | on an aligned picture an 8x8 quad is listed with all four quarters, or none of them is |
| RoqQuad.Grouped16 | neo/renderer/Cinematic.cpp:1412-1428 | an aligned 16x16 block lists groups of five |
| RoqQuad.Split16 | neo/renderer/Cinematic.cpp:1421-1428 | a 16x16 block's list is its quarters' lists |
| RoqQuad.SetupGrouped | neo/renderer/Cinematic.cpp:1436-1464 | with both sides multiples of 8, setupQuad's list is groups of five, an 8x8 quad and then its quarters, as long as numQuadCels - 64 |
| RoqQuad.GroupedLength | neo/renderer/Cinematic.cpp:1412-1428 | a grouped list's length is a multiple of 5 |
| RoqQuad.RecordedInFrame | neo/renderer/Cinematic.cpp:1412-1418 | a recorded quad's pixels lie in the first frame buffer, so its twin screenDelta further on lies in the second |
| RoqQuad.SetupInFrame | neo/renderer/Cinematic.cpp:1436-1464 | every offset setupQuad lists touches only the first frame buffer |
| RoqQuad.OffsetsConcat | neo/renderer/Cinematic.cpp:1415-1418 | the offsets of two lists in turn are each list's offsets in turn |
| RoqQuad.FrameGrows | neo/renderer/Cinematic.cpp:1451-1455 | later block rows only add to the list |
| RoqVq.NextCode | neo/renderer/Cinematic.cpp:956-968 | a code is the control word's top two bits, the word shifts left by two, and a new word is loaded only when none of the old one is left |
| RoqVq.CodesMsbFirst | neo/renderer/Cinematic.cpp:956-968 | the codes are the fields of each control word, most significant first; a fresh word is read from the next two data bytes, and no byte is read within a word |
| RoqVq.WordSpent | neo/renderer/Cinematic.cpp:956-961 | after the eighth code of a word none is left, so the next code loads a new word |
| RoqVq.BlitAt | neo/renderer/Cinematic.cpp:973 | a codebook blit, when inside its buffers, keeps the image size |
| RoqVq.MoveAt | neo/renderer/Cinematic.cpp:1020 | a motion move, when inside the image, keeps its size |
| RoqVq.Blit2x4 | neo/renderer/Cinematic.cpp:1001-1010 | the four 2x2 blits of a 4x4 quad keep the image size |
| RoqVq.Paint | neo/renderer/Cinematic.cpp:997-1014 | a vq or motion code for a quad keeps the image size |
| RoqVq.SubAction | neo/renderer/Cinematic.cpp:995-1016 | a sub-code acts on its 4x4 quad and moves on one quad |
| RoqVq.SubStep | neo/renderer/Cinematic.cpp:981-1016 | one sub-code reads its code and moves on one quad |
| RoqVq.SubSteps | neo/renderer/Cinematic.cpp:979-1017 | n sub-codes move on n quads |
| RoqVq.SubStepsFailed | neo/renderer/Cinematic.cpp:979-1017 | once a sub-code runs out of its buffers, the rest of the split does too |
| RoqVq.TopStep | neo/renderer/Cinematic.cpp:956-1027 | one top-level code keeps the image size |
| RoqVq.TopAction | neo/renderer/Cinematic.cpp:970-1027 | whatever the code, a top-level code moves on five entries |
| RoqVq.TopStepAdvances | neo/renderer/Cinematic.cpp:970-1027 | every top-level code moves on by exactly one 8x8 quad and its four 4x4 quads: by 5, or by 1 and then 1 per sub-code |
| RoqVq.RunFrom | neo/renderer/Cinematic.cpp:954-1029 | the do-while keeps the image size |
| RoqVq.RunFromSteps | neo/renderer/Cinematic.cpp:954-1029 | a finished walk took one step five entries on and then stopped at NULL or went on from there |
| RoqVq.RunStopsAtNull | neo/renderer/Cinematic.cpp:1029 | a finished walk stopped at the first NULL it met at an 8x8 quad start |
| RoqVq.RunReachesNull | neo/renderer/Cinematic.cpp:1029 | a finished walk reaches a NULL quad start |
| RoqVq.FirstNull | neo/renderer/Cinematic.cpp:1029 | among the quad starts reached, the first NULL one is at 5m with none before it |
| RoqBlit.RowStartIs | neo/renderer/Cinematic.cpp:720-722 | row r of a block starts r rows of dspl words on |
| RoqBlit.Cell | neo/renderer/Cinematic.cpp:724-850 | each word a copy writes lies inside the block's stretch |
| RoqBlit.CellInjective | neo/renderer/Cinematic.cpp:724-850 | no two words of one copy are the same, rows being at least w words apart |
| RoqBlit.BlitSpec | neo/renderer/Cinematic.cpp:714-938 | a blit keeps the image size |
| RoqBlit.MoveSpec | neo/renderer/Cinematic.cpp:512-707 | a move keeps the image size |
| RoqBlit.BlitWrites | neo/renderer/Cinematic.cpp:714-938 | blit8_32, blit4_32 and blit2_32 put entry word j at row j/w, column j%w of the block and leave every other word of the image alone |
| RoqBlit.MoveCopies | neo/renderer/Cinematic.cpp:512-707 | move8_32 and move4_32 between blocks that do not overlap copy word j of the source block to word j of the target and leave every other word alone |
| Cinematic.FileStream.constructor | neo/renderer/Cinematic.cpp:325 | a file opened for reading holds its bytes and is read from the start |
| Cinematic.FileStream.Length | neo/renderer/Cinematic.cpp:332 | Length is the size of the file |
| Cinematic.FileStream.Rewind | neo/renderer/Cinematic.cpp:1535 | a seek to the start puts the read position back at 0 |
| Cinematic.FileStream.Read | neo/renderer/Cinematic.cpp:1536 | a read gets as many of the requested bytes as are left, puts them at the start of the buffer, leaves the rest of it alone, and moves the position on by the count read |
| Cinematic.CinematicLocal.constructor | neo/renderer/Cinematic.cpp:154-181 | the buffers InitCinematic and the constructor allocate; the cinematic starts at end of file with no frame, no frame buffers and no file |
| Cinematic.CinematicLocal.AnimationLength | neo/renderer/Cinematic.cpp:386-389 | the length is the one InitFromFile set |
| Cinematic.CinematicLocal.ResetTime | neo/renderer/Cinematic.cpp:396-400 | the clock restarts at the view's time in milliseconds, or at -1 with no view, and the cinematic plays |
| Cinematic.CinematicLocal.RoQInit | neo/renderer/Cinematic.cpp:1992-2010 | 24 bytes played, the rate from bytes 6-7 (30 when 0), no quad info yet, and the first chunk's id, size and argument from bytes 8-15 |
| Cinematic.CinematicLocal.ReadQuadInfo | neo/renderer/Cinematic.cpp:1471-1497 | the picture and buffer size from the quad info, four bytes a pixel, a frame buffer's worth of bytes between the two buffers, each buffer's offset to the other, and the buffers allocated only when there are none yet |
| Cinematic.CinematicLocal.Sizes | neo/renderer/Cinematic.cpp:1473-1482 | the sizes readQuadInfo takes from the quad info |
| Cinematic.CinematicLocal.AllocImage | neo/renderer/Cinematic.cpp:1484-1487 | two frame buffers of the picture's size are allocated, unless there already are some |
| Cinematic.CinematicLocal.RoQShutdown | neo/renderer/Cinematic.cpp:2017-2032 | an idle cinematic is left as it is; any other becomes idle, its file closed and its name cleared |
| Cinematic.CinematicLocal.RoQReset | neo/renderer/Cinematic.cpp:1532-1539 | the file is read again from its start, up to 16 bytes, RoQ_init parses them, and the status is LOOPED |
| Cinematic.CinematicLocal.Restart | neo/renderer/Cinematic.cpp:1532-1539 | after RoQReset the stream is at its first chunk with no quad info, LOOPED |
| Cinematic.CinematicLocal.Close | neo/renderer/Cinematic.cpp:369-379 | frame buffers, when there are any, are freed with no frame and the status EOF, so RoQShutdown then closes the file; without buffers only RoQShutdown acts; either way the cinematic ends idle |
| Cinematic.CinematicLocal.SetupQuad | neo/renderer/Cinematic.cpp:1436-1464 | for a picture whose lists fit, both quad lists hold the picture's quads from entry 0, the second list screenDelta further on, then the 64-entry end marker |
| Cinematic.CinematicLocal.QuadVqChunk | neo/renderer/Cinematic.cpp:1880-1901 | an odd frame is drawn over the second list from the second buffer's offset, an even one over the first; the motion table is the one for this frame; the frame count goes up by one and buf names the buffer drawn; the very first frame is copied into the other buffer; false exactly when a buffer would be left |
| Cinematic.CinematicLocal.QuadInfoChunk | neo/renderer/Cinematic.cpp:1909-1919 | before the first frame the quad info is read and the lists set up, false exactly when the quad info or the lists would leave their buffers; later quad info chunks change nothing but the frame count, which restarts at 0 unless it is 1 |
| Cinematic.CinematicLocal.DispatchChunk | neo/renderer/Cinematic.cpp:1878-1939 | the effect of each chunk id on the frame count, the packet flag, the chunk size and the status, sound chunks doing nothing and unknown ids ending the stream |
| Cinematic.CinematicLocal.RoQInterrupt | neo/renderer/Cinematic.cpp:1855-1985 | a chunk too large for the chunk buffer ends the stream unread; a file fully played starts over when looping and ends otherwise; a next header the guard stops does the same; any other becomes the chunk in hand and its size and header are counted as played |
| Cinematic.CinematicLocal.DispatchFrom | neo/renderer/Cinematic.cpp:1873-1978 | from the chunk's dispatch to the next header, packets holding their chunks included: the next header is either stopped by the guard or made the chunk in hand |
| Cinematic.CinematicLocal.DispatchAt | neo/renderer/Cinematic.cpp:1877-1978 | one dispatch and the next header; a packet holding its chunks has the next chunk dispatched from just after that header |
| Cinematic.CinematicLocal.NextHeader | neo/renderer/Cinematic.cpp:1943-1978 | the next header is parsed from the bytes after the chunk; the file at its end, or a header the guard stops, ends the stream (and starts it over when looping); a packet holding its chunks goes on in the same read exactly when the stream has not ended |
| Cinematic.CinematicLocal.Pump | neo/renderer/Cinematic.cpp:449-461 | RoQInterrupt runs until what the loop waits for has come, unless the fuel runs out first |
| Cinematic.CinematicLocal.ImageForTime | neo/renderer/Cinematic.cpp:407-505 | a skipped, ended or idle cinematic returns no data and changes nothing; any other returns its size, status and frame, and is never left at end of file unless looping, its file left as it was |
| Cinematic.CinematicLocal.Play | neo/renderer/Cinematic.cpp:426-498 | playback leaves a cinematic that does not loop short of end of file, its file as it was |
| Cinematic.CinematicLocal.Decode | neo/renderer/Cinematic.cpp:449-498 | the same, from the decoding on |
| Cinematic.CinematicLocal.ClockStart | neo/renderer/Cinematic.cpp:426-433 | the clock starts now when there is no frame or it was reset, and a reset clock rewinds the stream |
| Cinematic.CinematicLocal.Recount | neo/renderer/Cinematic.cpp:435-447 | tfps is the frames due by now, and is never fewer than the frames drawn; fewer due than drawn starts the stream over, playing with no frame |
| Cinematic.CinematicLocal.Rewound | neo/renderer/Cinematic.cpp:442-447 | the stream is back at its start, playing, with no frame |
| Cinematic.CinematicLocal.CatchUp | neo/renderer/Cinematic.cpp:449-461 | without a frame, RoQInterrupt runs until there is one; with one, until the frames due are drawn or playing stops |
| Cinematic.CinematicLocal.LoopedBack | neo/renderer/Cinematic.cpp:463-471 | a loop back plays on up to a first frame and restarts the clock; otherwise nothing changes |
| Cinematic.CinematicLocal.EndOfFile | neo/renderer/Cinematic.cpp:473-498 | at end of file a looping cinematic starts over and restarts the clock; any other becomes idle and keeps its file open; otherwise nothing changes |
| Cinematic.CinematicLocal.StartOver | neo/renderer/Cinematic.cpp:475-487 | the stream starts over, playing, up to a first frame, and the clock restarts |
| Cinematic.CinematicLocal.InitFromFile | neo/renderer/Cinematic.cpp:306-362 | the file is looked for under its video path; none means false; a file whose first two bytes are the RoQ id is accepted and plays when looping and idles otherwise; the size, looping flag and rate byte are taken from the file; any other file is refused |
| Cinematic.CinematicLocal.OpenFile | neo/renderer/Cinematic.cpp:322-361 | InitFromFile once the file is found |
| Cinematic.CinematicLocal.Attach | neo/renderer/Cinematic.cpp:322-330 | the file is open and unread, its size and the looping flag taken |
| Cinematic.CinematicLocal.OpenRoQ | neo/renderer/Cinematic.cpp:334-361 | the header is read, the RoQ id decides acceptance and the rate byte is kept; an accepted file ends playing when looping and idle otherwise, a refused one idle |
| Cinematic.CinematicLocal.ReadHeader | neo/renderer/Cinematic.cpp:334-345 | the default 512 x 512 size, the clock at 0, no frame, then the first 16 bytes read, the id from bytes 0-1 and the rate from byte 6 |
| Cinematic.CinematicLocal.FirstFrame | neo/renderer/Cinematic.cpp:351-358 | after RoQ_init and a first ImageForTime the status is PLAY when looping and IDLE otherwise |
| Cinematic.CinematicLocal.PrepMcomp | neo/renderer/Cinematic.cpp:1504-1525 | the motion table is the one the buffer offset, the picture and the chunk's offsets call for |
| Cinematic.CinematicLocal.CopyFirstFrame | neo/renderer/Cinematic.cpp:1895-1898 | the first buffer's words are copied over the second's, false and unchanged when the image is too small |
| Cinematic.CinematicLocal.Blit | neo/renderer/Cinematic.cpp:714-938 | the unrolled blit8_32, blit4_32 and blit2_32 do what BlitAt says, and nothing when a buffer would be left |
| Cinematic.CinematicLocal.Move | neo/renderer/Cinematic.cpp:512-707 | the unrolled move8_32 and move4_32, reading the image as they write it, do what MoveAt says, and nothing when a buffer would be left |
| Cinematic.CinematicLocal.Blit2x4 | neo/renderer/Cinematic.cpp:1001-1010 | the four blit2_32 calls of a split 4x4 quad do what RoqVq.Blit2x4 says |
| Cinematic.CinematicLocal.PaintQuad | neo/renderer/Cinematic.cpp:972-1023 | a vq or motion code paints its quad as Paint says |
| Cinematic.CinematicLocal.SubQuad | neo/renderer/Cinematic.cpp:995-1016 | a sub-code acts on its 4x4 quad as SubAction says |
| Cinematic.CinematicLocal.SubCode | neo/renderer/Cinematic.cpp:981-1016 | one sub-code is read and acts as SubStep says |
| Cinematic.CinematicLocal.SplitQuad | neo/renderer/Cinematic.cpp:979-1017 | the four sub-codes of a split quad act as SubSteps says |
| Cinematic.CinematicLocal.TopQuad | neo/renderer/Cinematic.cpp:970-1027 | a top-level code acts on its 8x8 quad as TopAction says |
| Cinematic.CinematicLocal.TopCode | neo/renderer/Cinematic.cpp:956-1027 | one top-level code is read and acts as TopStep says |
| Cinematic.CinematicLocal.BlitVQQuad32fs | neo/renderer/Cinematic.cpp:945-1030 | the frame is drawn as RunFrom says, false exactly when the stream, the list or a copy would leave its buffer |
| Cinematic.CinematicLocal.DecodeCodeBook | neo/renderer/Cinematic.cpp:1162-1245 | false, the tables unchanged, exactly when the codebook would run past the chunk buffer; otherwise the 2x2 table holds the converted entries and the 4x4 and 8x8 tables the entries built from them |
| Cinematic.CinematicLocal.ConvertTwos | neo/renderer/Cinematic.cpp:1219-1231 | the first `two` 2x2 entries are converted from their six bytes each |
| Cinematic.CinematicLocal.ConvertTwo | neo/renderer/Cinematic.cpp:1221-1230 | one more 2x2 entry is converted, the earlier ones kept |
| Cinematic.CinematicLocal.BuildFours | neo/renderer/Cinematic.cpp:1233-1245 | the first `four` half-entries of the 4x4 and 8x8 tables are built from the 2x2 entries the input names |
| Cinematic.CinematicLocal.Vq2To4 | neo/renderer/Cinematic.cpp:1032-1044 | one VQ2TO4 pass writes one row of a 4x4 half-entry and two doubled rows of an 8x8 half-entry, nothing else |
| Cinematic.VideoPathNamesFile | neo/renderer/Cinematic.cpp:313-320 | a bare name is put under video/, a path is kept; either way the name ends the path and the path has a separator |
| Cinematic.MotionNibbles | neo/renderer/Cinematic.cpp:1516-1524 | a motion byte's high nibble biased by 8 is the move across and its low nibble the move down, each added to the chunk's offsets and scaled by the strides |
| Cinematic.Vq2Extend | neo/renderer/Cinematic.cpp:1219-1231 | converting one more 2x2 entry extends the filled part of the table |
| Cinematic.Vq4Extend | neo/renderer/Cinematic.cpp:1236-1245 | building one more 4x4 half-entry extends the built part of the table |
| Cinematic.Vq8Extend | neo/renderer/Cinematic.cpp:1236-1245 | building one more 8x8 half-entry extends the built part of the table |

## Left out

- `neo/game/MultiplayerGame.h` is not part of this model. The constants
  it defines are taken as DOOM 3 sets them: MINFRAGS -100, MAXFRAGS 100,
  MAXWINS 100, MAXPING 999, NUM_CHAT_NOTIFY 5, CHAT_FADE_TIME 400,
  FRAGLIMIT_DELAY 2000 and MAX_CLIENTS 32.
- `idBitMsg` is not part of this model. The snapshot's bit stream is
  modelled field by field, least significant bit first. A signed field
  sign-extends on reading.
- The GUI, sounds, `PrintMessageEvent`, the console echo, `DPrintf`, and
  the network sends are left out: they are output only. Some messages
  decide state, such as the tourney line each client is told. Those are
  returned as values.
- `UpdateRankColor` is left out: it only colours the GUI.
- The COUNTDOWN announcer sounds and the warmup text in `Run` are left
  out: they are GUI output.
- The map list that `NextMap` cycles through is a result passed in as a
  parameter. The map-cycle script is not part of this model.
- MpVote.CheckVoteStep: the source tallies votes as floats. The model
  compares exact integers (`2 * yes > voters`), which gives the same
  answer as the float comparison for up to 32 voters.
- MpRespawn.SetSpectate: `idPlayer::ServerSpectate` is reduced to setting
  the player's spectating flag. Its effects on the player entity are left
  out.
- MpGame.MultiplayerGame.ReadFromSnapshot: two differences from the
  source. A phase byte of 7 or more is ignored and the phase kept,
  because `GameState` holds only the seven phases; the source would cast
  the byte to an undefined phase. A message shorter than the snapshot
  changes nothing, because what idBitMsg returns when read past its end
  is not modelled; the source goes on reading.
- MpGame.MultiplayerGame.SpawnPlayer: the team switch `SwitchToTeam` does
  for a team deathmatch is left out, because it belongs to `idPlayer`.
- Cinematic: only the live decoding path is modelled.
  - `InitFromFile` always sets four bytes a pixel.
  - `readQuadInfo` always clears `half` and `smootheddouble`.
  - So the two-bytes-a-pixel, half-width and smoothed-double paths of
    `decodeCodeBook` and `RoQPrepMcomp` can never run, and are left out.
- `JPEGBlit` is left out. The JPEG chunk is dispatched, and its first
  frame is copied, but the JPEG image is not decoded, because the JPEG
  library is not part of this model.
- Sound chunks are passed over, as in the source. The sound mixer is
  left out.
- RoqColor: `InitCinematic` computes the four YUV chroma tables in
  float. Here they are inputs: any four tables of 256 entries. The luma
  table and the conversion arithmetic are modelled exactly.
- RoqStream.FramesDue: the source computes `tfps` in float
  (`frameRate`). The model computes it exactly in integers, with four
  times the rate. This agrees with the float value except where float
  rounding would change a whole frame.
- Cinematic.CinematicLocal.Pump, Cinematic.CinematicLocal.ImageForTime:
  the source's `while` loops run `RoQInterrupt` with no bound. Here they
  run at most `fuel` times. When the fuel runs out, the contract says
  only that the fuel ran out, not that the loop's condition holds.
- Cinematic.CinematicLocal.ImageForTime: the `r_skipROQ` setting is the
  parameter `skip`, and the time of the view, used by `ResetTime`, is a
  parameter.
- Cinematic.CinematicLocal.InitFromFile: the file system is the map
  `files` from path to contents.
- Cinematic.CinematicLocal.RoQInterrupt, Cinematic.CinematicLocal.NextHeader,
  Cinematic.CinematicLocal.DecodeCodeBook, Cinematic.CinematicLocal.BlitVQQuad32fs,
  Cinematic.CinematicLocal.CopyFirstFrame: where the source would read or
  write past the end of a buffer, these stop instead. `RoQInterrupt`
  ends the stream when a chunk and its 8-byte header do not fit the
  65536-byte buffer (the source reads it regardless, line 1859);
  `NextHeader` does the same for a header at the buffer's end; the
  others return `false` and the stream ends. The model says nothing of
  what the source does after such an overrun.
- The second `RoQPlayed >= ROQSize` check in `RoQInterrupt`
  (`Cinematic.cpp:1943-1954`) is modelled with the first. The two are
  the same test, because nothing in the dispatch changes `RoQPlayed`.
- When a cinematic that does not loop reaches its end, `ImageForTime`
  makes it idle and then calls `RoQShutdown`. That call finds it idle and
  does nothing, so the file stays open. The model does the same.
- Memory allocation and freeing are not modelled: `image` is a fresh
  array, and freeing it sets `hasImage` to false. The `dirty` flag is left
  out, because nothing in this core reads it.

## Findings

| source | as written | input that shows it | evidently intended | confidence | as-written member | corrected member |
|---|---|---|---|---|---|---|
| neo/renderer/Cinematic.cpp:1963 | `RoQInterrupt` stops the stream only at a chunk of more than 65536 bytes. The next call reads the chunk and its 8-byte header, `RoQFrameSize + 8` bytes (line 1859), into the 65536-byte buffer `file` (line 175). | a chunk header of id 0x1002 and size 65536: it passes the guard, and the next read is 65544 bytes | stop at any chunk whose size plus 8 exceeds 65536 | high, not executed | RoqStream.AsWrittenLetsOverrunThrough | RoqStream.GuardsDiffer |
| neo/renderer/Cinematic.cpp:1436-1464 | `setupQuad` writes `numQuadCels` entries into each quad list with no check against their 32768 entries (lines 282-283). | a picture of 1024 x 512 pixels: 40960 quads are listed, and the end marker runs to entry 41023 | refuse a picture whose quad lists do not fit | medium, not executed | RoqStream.LargePictureOverrunsLists | RoqStream.FittingPictureStaysInLists |
| neo/game/MultiplayerGame.cpp:3496 | In a tourney warmup, `CheckAbortGame` reads `gameLocal.entities[currentTourneyPlayer[i]]` also when the seat is -1. Line 3512 does the same for a running tourney. | a tourney warmup with one client who wants to play: `FillTourneySlots` leaves seat 1 at -1, and line 3496 reads `entities[-1]` | treat an empty seat (-1) as a seat to free or an abort, without reading | high, not executed | MpRespawn.EmptySeatRead | MpRespawn.AbortFreesSeats |
