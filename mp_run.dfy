/**
 * The server's Run frame as functions of the match state: each step of
 * idMultiplayerGame::Run, and each phase's part of it, gives the whole new
 * match from the old one. The methods of MultiplayerGame are proved to
 * change their fields exactly as these say.
 */
module MpRun {
  import opened MpTypes
  import opened MpLeader
  import opened MpScore
  import opened MpPhase
  import opened MpCount
  import opened MpRespawn
  import opened MpTourney
  import opened MpVote
  import opened MpChat

  /** The server settings the match rules read: si_fragLimit, si_timeLimit, si_warmup, g_countDown, g_gameReviewPause. */
  datatype Settings = Settings(fragLimit: int, timeLimit: int, warmup: bool, countDown: int, gameReviewPause: int)

  /**
   * The part of idMultiplayerGame that Run reads and changes: the player
   * entities, the score table, the tourney seats, the phase and the
   * scheduled change with its time, the last winner, the match start time,
   * the end delay, the frag limit in force, the warmup end time, and every
   * phase so far.
   */
  datatype Match = Match(
    ents: Entities,
    ps: seq<PlayerState>,
    seats: Seats,
    gs: GameState,
    ns: GameState,
    switchAt: int,
    lastWinner: int,
    matchStart: int,
    fragTimeout: int,
    startFrag: int,
    warmupEnd: int,
    log: seq<GameState>)

  /** A match has a score table entry for every client. */
  predicate Sized(m: Match) {
    |m.ents| <= |m.ps|
  }

  function ViewOf(gt: GameType, m: Match): MatchView {
    MatchView(gt, m.ents, m.ps, m.seats)
  }

  /** The part of the match CheckRespawns changes. */
  function RespawnOf(m: Match): Respawn {
    Respawn(m.gs, m.ns, m.lastWinner, m.ents, m.ps, m.seats)
  }

  /**
   * NewState(news, winner) at `time`: GameOn lines the players up and
   * restarts the scores, the clock and the end delay; GameReview credits
   * `winner`, sends everyone to spectate and cancels the scheduled change;
   * Countdown fixes the warmup end time; every other phase is only entered.
   */
  function Entered(gt: GameType, m: Match, news: GameState, winner: int, time: int, st: Settings): (r: Match)
    requires Sized(m) && (winner == -1 || IsPlayer(m.ents, winner))
    ensures |r.ents| == |m.ents| && |r.ps| == |m.ps| && r.gs == news && r.log == m.log + [news]
    ensures r.seats == m.seats && r.switchAt == m.switchAt
  {
    var m1 := m.(gs := news, log := m.log + [news]);
    if news == GameOn then
      m1.(ents := GameOnEnts(gt, m.ents, m.ps, m.seats), ps := GameOnScores(gt, m.ents, m.ps, m.seats, st.fragLimit),
          matchStart := time, fragTimeout := 0, startFrag := st.fragLimit)
    else if news == GameReview then
      m1.(ns := Inactive, lastWinner := winner, ents := ReviewEnts(m.ents), ps := WinsCounted(gt, m.ents, m.ps, winner))
    else if news == Countdown then
      m1.(warmupEnd := time + 1000 * st.countDown)
    else m1
  }

  /** CheckRespawns(spectator): RespawnStep for every client in turn; a changed phase joins the history. */
  function Respawned(gt: GameType, m: Match, spectator: int): (r: Match)
    requires Sized(m)
    ensures |r.ents| == |m.ents| && |r.ps| == |m.ps|
    ensures r.switchAt == m.switchAt && r.fragTimeout == m.fragTimeout
  {
    var s := RespawnsUpTo(gt, m.fragTimeout, RespawnOf(m), spectator, |m.ents|);
    m.(gs := s.gs, ns := s.nextState, lastWinner := s.lastWinner, ents := s.ents, ps := s.ps, seats := s.seats,
       log := if s.gs == m.gs then m.log else m.log + [s.gs])
  }

  /** The first frame of a server's match leaves INACTIVE for WARMUP. */
  function LeaveAfter(gt: GameType, m: Match, time: int, st: Settings): (r: Match)
    requires Sized(m)
    ensures |r.ents| == |m.ents| && |r.ps| == |m.ps|
  {
    if m.gs == Inactive then Entered(gt, m, Warmup, -1, time, st) else m
  }

  /** Run's scheduled change: once its time has passed, the scheduled phase is entered and nothing is scheduled. */
  function SwitchAfter(gt: GameType, m: Match, time: int, st: Settings): (r: Match)
    requires Sized(m)
    ensures |r.ents| == |m.ents| && |r.ps| == |m.ps|
  {
    if m.ns != Inactive && time > m.switchAt then Entered(gt, m, m.ns, -1, time, st).(ns := Inactive) else m
  }

  /** Run's ping refresh: every client's score table entry takes its ping from `pings`. */
  function Pinged(m: Match, pings: seq<int>): (r: Match)
    ensures r.ents == m.ents && |r.ps| == |m.ps|
    ensures forall i :: 0 <= i < |m.ps| ==> r.ps[i] == if i < |m.ents| && i < |pings| then m.ps[i].(ping := pings[i]) else m.ps[i]
  {
    m.(ps := seq(|m.ps|, i requires 0 <= i < |m.ps| =>
                 if i < |m.ents| && i < |pings| then m.ps[i].(ping := pings[i]) else m.ps[i]))
  }

  /**
   * The end delay of a leader `winner`: it starts FRAGLIMIT_DELAY ms from
   * `time` unless already running, and once it has passed the match goes
   * to GameReview with `winner` credited.
   */
  function EndDelay(gt: GameType, m: Match, winner: int, time: int, st: Settings): (r: Match)
    requires Sized(m) && IsPlayer(m.ents, winner)
    ensures |r.ents| == |m.ents| && |r.ps| == |m.ps|
  {
    var t := if m.fragTimeout == 0 then time + FRAGLIMIT_DELAY else m.fragTimeout;
    var m1 := m.(fragTimeout := t);
    if time > t then Entered(gt, m1, GameReview, winner, time, st) else m1
  }

  /** The leaders marked: every player's isLeader says whether it tops the match. */
  function Marked(gt: GameType, m: Match): (r: Match)
    ensures |r.ents| == |m.ents| && r.ps == m.ps
    ensures forall i :: IsPlayer(m.ents, i) <==> IsPlayer(r.ents, i)
  {
    m.(ents := MarkLeaders(ViewOf(gt, m)))
  }

  /** The time limit is up in GAMEON: the frag leader wins, or sudden death starts on a tie. */
  function TimeUpAfter(gt: GameType, m: Match, time: int, st: Settings): (r: Match)
    requires Sized(m)
    ensures |r.ents| == |m.ents| && |r.ps| == |m.ps|
  {
    var lead := FragLeaderOf(ViewOf(gt, m));
    var m1 := Marked(gt, m);
    if lead == -1 then Entered(gt, m1, SuddenDeath, -1, time, st) else Entered(gt, m1, GameReview, lead, time, st)
  }

  /** The last man standing players come back in and the end delay is cancelled. */
  function PlayAgain(gt: GameType, m: Match): (r: Match)
    requires Sized(m)
    ensures |r.ents| == |m.ents| && r.ps == m.ps
  {
    m.(ents := PlayAgainEnts(gt, m.ents, m.ps), fragTimeout := 0)
  }

  /**
   * Run in GAMEON: a frag limit winner ends the match after the end delay;
   * a frag limit hit and lost again during the delay starts sudden death;
   * a time limit ends the match with the frag leader, or starts sudden
   * death on a tie.
   */
  function GameOnAfter(gt: GameType, m: Match, time: int, st: Settings): (r: Match)
    requires Sized(m)
    ensures |r.ents| == |m.ents| && |r.ps| == |m.ps|
  {
    var v := ViewOf(gt, m);
    var w := FragLimitWinner(v, st.fragLimit);
    var m1 := Marked(gt, m);
    FragLimitWinnerMeans(v, st.fragLimit);
    if w != -1 then EndDelay(gt, m1, w, time, st)
    else if m.fragTimeout != 0 then Entered(gt, PlayAgain(gt, m1), SuddenDeath, -1, time, st)
    else if st.timeLimit != 0 && time >= m.matchStart + st.timeLimit * 60000 then TimeUpAfter(gt, m1, time, st)
    else m1
  }

  /**
   * Run in SUDDENDEATH: a single frag leader wins after the end delay; a
   * lead lost again during the delay cancels it and brings the last man
   * standing players back in.
   */
  function SuddenDeathAfter(gt: GameType, m: Match, time: int, st: Settings): (r: Match)
    requires Sized(m)
    ensures |r.ents| == |m.ents| && |r.ps| == |m.ps|
  {
    var lead := FragLeaderOf(ViewOf(gt, m));
    var m1 := Marked(gt, m);
    if lead != -1 then EndDelay(gt, m1, lead, time, st)
    else if m.fragTimeout != 0 then PlayAgain(gt, m1)
    else m1
  }

  /** Run in WARMUP: once every player is ready, the countdown starts and GAMEON is scheduled for its end. */
  function WarmupAfter(gt: GameType, m: Match, time: int, st: Settings): (r: Match)
    requires Sized(m)
    ensures |r.ents| == |m.ents| && |r.ps| == |m.ps|
  {
    if AllReady(gt, m.ents, m.ps, m.seats, st.warmup) then
      Entered(gt, m, Countdown, -1, time, st).(ns := GameOn, switchAt := time + 1000 * st.countDown)
    else m
  }

  /** NEXTGAME's put-back loop from client `i` on: each player who does not want to spectate is checked for respawn. */
  function PutBack(gt: GameType, m: Match, i: nat): (r: Match)
    requires Sized(m)
    ensures |r.ents| == |m.ents| && |r.ps| == |m.ps|
    decreases |m.ents| - i
  {
    if i >= |m.ents| then m
    else
      var m1 := if m.ents[i].Some? && !m.ents[i].value.wantSpectate then Respawned(gt, m, i) else m;
      PutBack(gt, m1, i + 1)
  }

  /** A tourney's new round: last round's winner keeps a seat, the empty seats are filled, and only the seated play. */
  function Cycle(m: Match): (r: Match)
    ensures |r.ents| == |m.ents| && r.ps == m.ps
  {
    var seats := FillSlots(m.ents, CycleSeats(m.ents, m.lastWinner));
    m.(seats := seats, ents := Cycled(m.ents, seats))
  }

  /** Run in NEXTGAME without a map change: back to WARMUP, a tourney cycles its seats, and the players are put back in. */
  function NextGameAfter(gt: GameType, m: Match, time: int, st: Settings): (r: Match)
    requires Sized(m)
    ensures |r.ents| == |m.ents| && |r.ps| == |m.ps|
  {
    var m1 := Entered(gt, m, Warmup, -1, time, st);
    PutBack(gt, if gt == GameTourney then Cycle(m1) else m1, 0)
  }

  /**
   * The per-phase part of Run: GAMEREVIEW schedules NEXTGAME after
   * g_gameReviewPause seconds; NEXTGAME waits for a scheduled change or a
   * map change, or goes back to WARMUP; the others run their tick.
   */
  function PhaseAfter(gt: GameType, m: Match, time: int, st: Settings, nextMap: bool): (r: Match)
    requires Sized(m)
    ensures |r.ents| == |m.ents| && |r.ps| == |m.ps|
  {
    if m.gs == GameReview then
      (if m.ns == Inactive then m.(ns := NextGame, switchAt := time + 1000 * st.gameReviewPause) else m)
    else if m.gs == NextGame then
      (if m.ns == Inactive && !nextMap then NextGameAfter(gt, m, time, st) else m)
    else if m.gs == Warmup then WarmupAfter(gt, m, time, st)
    else if m.gs == GameOn then GameOnAfter(gt, m, time, st)
    else if m.gs == SuddenDeath then SuddenDeathAfter(gt, m, time, st)
    else m
  }

  /** The start of Run: INACTIVE is left and the respawns are checked (the vote does not touch the match). */
  function StartAfter(gt: GameType, m: Match, time: int, st: Settings): (r: Match)
    requires Sized(m)
    ensures |r.ents| == |m.ents| && |r.ps| == |m.ps|
  {
    Respawned(gt, LeaveAfter(gt, m, time, st), -1)
  }

  /**
   * A whole Run frame: the start, the scheduled change, the ping refresh
   * when it is due, and the current phase's part.
   */
  function RunAfter(gt: GameType, m: Match, time: int, st: Settings, pings: seq<int>, pingDue: bool, nextMap: bool): (r: Match)
    requires Sized(m)
    ensures |r.ents| == |m.ents| && |r.ps| == |m.ps|
  {
    var m1 := SwitchAfter(gt, StartAfter(gt, m, time, st), time, st);
    PhaseAfter(gt, if pingDue then Pinged(m1, pings) else m1, time, st, nextMap)
  }

  /** The part of the match CheckVote changes: the vote called, the time a passed vote runs (0 for none), the chat ring. */
  datatype VoteState = VoteState(vote: VoteKind, execTime: int, ring: ChatRing)

  /**
   * CheckVote at `time` on the server, as CheckVoteStep decides: a passed
   * vote announces itself and runs VOTE_EXEC_DELAY ms later; a failed one
   * announces itself and ends; an executed or aborted one ends silently.
   */
  function VoteAfter(v: VoteState, time: int, timeOut: int, yes: int, no: int, voters: nat): (r: VoteState)
    requires RingValid(v.ring)
  {
    var s := CheckVoteStep(v.vote, v.execTime, time, timeOut, yes, no, voters);
    VoteState(
      if s == Execute || s == Abort || s == Fail then VoteNone else v.vote,
      if s == Execute then 0 else if s == Pass then time + VOTE_EXEC_DELAY else v.execTime,
      if s == Pass then AddLine(v.ring, "#str_04277") else if s == Fail then AddLine(v.ring, "#str_04278") else v.ring)
  }
}
