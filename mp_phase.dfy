/**
 * The match phase machine: which phase changes NewState is ever asked for,
 * and what the entering of a phase does to the players and the score table.
 */
module MpPhase {
  import opened Wrappers
  import opened MpTypes
  import opened MpScore

  /**
   * The phase changes the server makes: the rotation Inactive, Warmup,
   * Countdown, GameOn, (SuddenDeath,) GameReview, NextGame, Warmup, ..., and
   * the aborts to GameReview from a running match.
   */
  predicate Allowed(from: GameState, to: GameState) {
    match from
    case Inactive => to == Warmup
    case Warmup => to == Countdown
    case Countdown => to == GameOn || to == GameReview
    case GameOn => to == SuddenDeath || to == GameReview
    case SuddenDeath => to == GameReview
    case GameReview => to == NextGame
    case NextGame => to == Warmup
  }

  /** A history of phases in which every change is allowed. */
  ghost predicate PhaseHistory(log: seq<GameState>) {
    && |log| >= 1 && log[0] == Inactive
    && forall k :: 0 < k < |log| ==> Allowed(log[k - 1], log[k])
  }

  /** An allowed change keeps the history well formed. */
  lemma ExtendHistory(log: seq<GameState>, next: GameState)
    requires PhaseHistory(log) && Allowed(log[|log| - 1], next)
    ensures PhaseHistory(log + [next])
  {
  }

  /** A change is never to the current phase, as NewState asserts. */
  lemma AllowedChanges(from: GameState, to: GameState)
    requires Allowed(from, to)
    ensures from != to
  {
  }

  /**
   * The scheduled change Run performs later: none, GameOn once a countdown
   * ends, or NextGame once the review pause ends.
   */
  predicate Scheduled(gameState: GameState, nextState: GameState) {
    nextState == Inactive
    || (nextState == GameOn && gameState == Countdown)
    || (nextState == NextGame && gameState == GameReview)
  }

  /** A scheduled change is an allowed one. */
  lemma ScheduledAllowed(gameState: GameState, nextState: GameState)
    requires Scheduled(gameState, nextState) && nextState != Inactive
    ensures Allowed(gameState, nextState)
  {
  }

  /**
   * Entering GameOn, for one player: the leader flag cleared; in a tourney
   * an unseated player spectates and climbs one rank, a seated one that
   * wants to play is put in with rank 0; elsewhere a player that wants to
   * play is put in; lastManPresent records whether the player can play.
   */
  function GameOnPlayer(gt: GameType, p: Player, ps: PlayerState, seated: bool): Player {
    var present := CanPlay(p, ps);
    if gt == GameTourney && !seated then
      p.(isLeader := false, spectating := true, tourneyRank := p.tourneyRank + 1, lastManPresent := present)
    else if !p.wantSpectate then
      p.(isLeader := false, spectating := false, lastManPresent := present,
         tourneyRank := if gt == GameTourney then 0 else p.tourneyRank)
    else p.(isLeader := false, lastManPresent := present)
  }

  /** Entering GameOn, for the players. */
  function GameOnEnts(gt: GameType, ents: Entities, ps: seq<PlayerState>, seats: Seats): (r: Entities)
    requires |ents| <= |ps|
    ensures |r| == |ents|
  {
    seq(|ents|, i requires 0 <= i < |ents| =>
      if ents[i].None? then None else Some(GameOnPlayer(gt, ents[i].value, ps[i], Seated(seats, i))))
  }

  /** Lining the players up keeps every entity's team and tourney rank in range. */
  lemma GameOnEntsValid(gt: GameType, ents: Entities, ps: seq<PlayerState>, seats: Seats)
    requires EntitiesValid(ents) && |ents| <= |ps|
    ensures EntitiesValid(GameOnEnts(gt, ents, ps, seats))
  {
    var r := GameOnEnts(gt, ents, ps, seats);
    forall i | 0 <= i < |r| && r[i].Some?
      ensures (r[i].value.team == 0 || r[i].value.team == 1) && r[i].value.tourneyRank >= 0
    {
      GameOnPlayerInRange(gt, ents[i].value, ps[i], Seated(seats, i));
    }
  }

  /** One player lined up keeps its team, and a tourney rank that was in range stays so. */
  lemma GameOnPlayerInRange(gt: GameType, p: Player, ps: PlayerState, seated: bool)
    ensures GameOnPlayer(gt, p, ps, seated).team == p.team
    ensures p.tourneyRank >= 0 ==> GameOnPlayer(gt, p, ps, seated).tourneyRank >= 0
  {
  }

  /** Client `i` starts the match from the starting frag count: a player, seated when in a tourney. */
  predicate StartsFresh(gt: GameType, ents: Entities, seats: Seats, i: int) {
    IsPlayer(ents, i) && !(gt == GameTourney && !Seated(seats, i))
  }

  /** Entering GameOn, for the score table: players that play start at fragLimit in last man standing, 0 elsewhere. */
  function GameOnScores(gt: GameType, ents: Entities, ps: seq<PlayerState>, seats: Seats, fragLimit: int): (r: seq<PlayerState>)
    ensures |r| == |ps|
  {
    seq(|ps|, i requires 0 <= i < |ps| => StartScore(gt, ps[i], StartsFresh(gt, ents, seats, i), fragLimit))
  }

  /** One score table entry on entering GameOn: fragLimit in last man standing, 0 elsewhere, when it starts fresh. */
  function StartScore(gt: GameType, ps: PlayerState, starts: bool, fragLimit: int): PlayerState {
    var start := if gt == GameLastMan then fragLimit else 0;
    if starts then ps.(fragCount := start, teamFragCount := start) else ps
  }

  /** Entering GameReview: every player is no longer force-readied and spectates. */
  function ReviewEnts(ents: Entities): (r: Entities)
    ensures |r| == |ents|
  {
    seq(|ents|, i requires 0 <= i < |ents| =>
      if ents[i].None? then None else Some(Spectate(ents[i].value.(forcedReady := false), true)))
  }

  /**
   * A match starts level: outside a tourney every player starts from the
   * same frag count and team score, so teammates agree; in a tourney the two
   * seated players that want to play are in, with rank 0, and every other
   * player spectates with a higher rank.
   */
  lemma GameOnStartsLevel(gt: GameType, ents: Entities, ps: seq<PlayerState>, seats: Seats, fragLimit: int)
    requires |ents| <= |ps|
    ensures var r := GameOnScores(gt, ents, ps, seats, fragLimit);
      gt != GameTourney ==>
        && TeamScoresAgree(ents, r)
        && forall i :: 0 <= i < |ps| && IsPlayer(ents, i) ==>
             r[i].fragCount == (if gt == GameLastMan then fragLimit else 0)
    ensures var e := GameOnEnts(gt, ents, ps, seats);
      gt == GameTourney ==>
        forall i :: 0 <= i < |ents| && ents[i].Some? ==>
          && !e[i].value.isLeader
          && (!Seated(seats, i) ==> e[i].value.spectating && e[i].value.tourneyRank == ents[i].value.tourneyRank + 1)
          && (Seated(seats, i) && !ents[i].value.wantSpectate ==>
                !e[i].value.spectating && e[i].value.tourneyRank == 0)
  {
  }

  /** GameReview leaves no player in the game. */
  lemma ReviewAllSpectate(ents: Entities)
    ensures forall i :: 0 <= i < |ents| ==>
      (ReviewEnts(ents)[i].Some? <==> ents[i].Some?)
      && (ents[i].Some? ==> ReviewEnts(ents)[i].value.spectating && !ReviewEnts(ents)[i].value.forcedReady)
  {
  }

  /** Entering GameReview keeps who is a player and on which team, so the wins go to the same players. */
  lemma ReviewKeepsWins(gt: GameType, ents: Entities, ps: seq<PlayerState>, winner: int)
    requires winner == -1 || IsPlayer(ents, winner)
    ensures winner == -1 || IsPlayer(ReviewEnts(ents), winner)
    ensures WinsCounted(gt, ReviewEnts(ents), ps, winner) == WinsCounted(gt, ents, ps, winner)
  {
    var r := ReviewEnts(ents);
    assert forall i :: 0 <= i < |ps| ==> WinsCounted(gt, r, ps, winner)[i] == WinsCounted(gt, ents, ps, winner)[i];
  }
}

