/**
 * The values idMultiplayerGame works on: game types and phases, per-client
 * score records, the vote enumerations, and the view of a player entity the
 * match rules read and write.
 */
module MpTypes {
  import opened Wrappers

  /** Engine limits (Game.h and MultiplayerGame.h). */
  const MAX_CLIENTS: int := 32
  /** Frag count given to a last-man player who has no lives left. */
  const LASTMAN_NOLIVES: int := -20
  const MP_PLAYER_MINFRAGS: int := -100
  const MP_PLAYER_MAXFRAGS: int := 100
  const MP_PLAYER_MAXWINS: int := 100
  const MP_PLAYER_MAXPING: int := 999
  /** Number of chat lines kept for the chat overlay. */
  const NUM_CHAT_NOTIFY: int := 5
  const CHAT_FADE_TIME: int := 400
  const FRAGLIMIT_DELAY: int := 2000
  /** A called vote stays open for 20 seconds; a passed one runs 2 seconds later. */
  const VOTE_TIMEOUT: int := 20000
  const VOTE_EXEC_DELAY: int := 2000
  /** The fade value a new chat line starts with. */
  const CHAT_LINE_FADE: int := 6
  /** Starting value of the running maximum in FragLeader. */
  const FRAG_LEADER_FLOOR: int := -9999

  datatype GameType = GameSP | GameDM | GameTourney | GameTDM | GameLastMan

  /** The match phases, in the order of gameState_t. */
  datatype GameState = Inactive | Warmup | Countdown | GameOn | SuddenDeath | GameReview | NextGame

  /** The enumeration value of a phase, as sent in a snapshot byte. */
  function GameStateIndex(s: GameState): (n: nat)
    ensures n < 7
  {
    match s
    case Inactive => 0
    case Warmup => 1
    case Countdown => 2
    case GameOn => 3
    case SuddenDeath => 4
    case GameReview => 5
    case NextGame => 6
  }

  /** The phase with enumeration value `n`, if there is one. */
  function GameStateOf(n: int): (r: Option<GameState>)
    ensures r.Some? <==> 0 <= n < 7
    ensures r.Some? ==> GameStateIndex(r.value) == n
  {
    if n == 0 then Some(Inactive)
    else if n == 1 then Some(Warmup)
    else if n == 2 then Some(Countdown)
    else if n == 3 then Some(GameOn)
    else if n == 4 then Some(SuddenDeath)
    else if n == 5 then Some(GameReview)
    else if n == 6 then Some(NextGame)
    else None
  }

  lemma GameStateIndexRoundTrip(s: GameState)
    ensures GameStateOf(GameStateIndex(s)) == Some(s)
  {
  }

  /** How one client stands in the current vote. */
  datatype PlayerVote = PlayerVoteNone | PlayerVoteNo | PlayerVoteYes | PlayerVoteWait

  /** The vote in progress (vote_flags_t); VoteNone when there is none. */
  datatype VoteKind =
    | VoteNone | VoteRestart | VoteTimeLimit | VoteFragLimit | VoteGameType
    | VoteKick | VoteMap | VoteSpectators | VoteNextMap

  /** One client's entry of the score table (mpPlayerState_t). */
  datatype PlayerState = PlayerState(
    ping: int,
    fragCount: int,
    teamFragCount: int,
    wins: int,
    vote: PlayerVote,
    scoreBoardUp: bool,
    ingame: bool)

  /** The all-zero record a memset leaves behind. */
  const ZeroState: PlayerState := PlayerState(0, 0, 0, 0, PlayerVoteNone, false, false)

  /**
   * The fields of a player entity (idPlayer) that the match rules read or
   * write. The entity itself lives outside idMultiplayerGame.
   */
  datatype Player = Player(
    team: int,
    wantSpectate: bool,
    spectating: bool,
    lastManOver: bool,
    lastManPresent: bool,
    lastManPlayAgain: bool,
    tourneyRank: int,
    spawnedTime: int,
    forceRespawn: bool,
    ready: bool,
    forcedReady: bool,
    isLeader: bool)

  /** gameLocal.entities[0 .. numClients): None where the slot holds no player. */
  type Entities = seq<Option<Player>>

  /** What every caller of the match rules guarantees about the entities. */
  ghost predicate EntitiesValid(ents: Entities) {
    && |ents| <= MAX_CLIENTS
    && forall i :: 0 <= i < |ents| && ents[i].Some? ==>
         (ents[i].value.team == 0 || ents[i].value.team == 1) && ents[i].value.tourneyRank >= 0
  }

  /** True when client `i` holds a player entity. */
  predicate IsPlayer(ents: Entities, i: int) {
    0 <= i < |ents| && ents[i].Some?
  }

  /** CanPlay: the player has not asked to spectate and has entered the game. */
  predicate CanPlay(p: Player, ps: PlayerState) {
    !p.wantSpectate && ps.ingame
  }

  /** WantRespawn: a forced respawn of a player who can play. */
  predicate WantRespawn(p: Player, ps: PlayerState) {
    p.forceRespawn && !p.wantSpectate && ps.ingame
  }

  /** The two tourney seats (currentTourneyPlayer); -1 for an empty seat. */
  type Seats = s: seq<int> | |s| == 2 witness [-1, -1]

  /** A read-only view of the match: game type, entities, score table and seats. */
  datatype MatchView = MatchView(gt: GameType, ents: Entities, ps: seq<PlayerState>, seats: Seats)

  /** True when client `i` is in one of the two tourney seats. */
  predicate Seated(seats: Seats, i: int) {
    i == seats[0] || i == seats[1]
  }

  /** ServerSpectate, reduced to its effect on the entity's spectating flag. */
  function Spectate(p: Player, on: bool): Player {
    p.(spectating := on)
  }
}
