/**
 * idMultiplayerGame: the server-side match state of a multiplayer game and
 * the operations that drive it. The player entities themselves belong to
 * the game world; `ents` stands for gameLocal.entities[0 .. numClients).
 */
module MpGame {
  import opened Wrappers
  import opened MpTypes
  import opened MpRank
  import opened MpLeader
  import opened MpScore
  import opened MpVote
  import opened MpChat
  import opened MpTourney
  import opened MpPhase
  import opened MpCount
  import opened MpRespawn
  import opened MpSnapshot
  import opened BitMsg
  import opened MpRun

  /** The shift of UpdatePlayerRanks: entries j .. num-1 move up one slot and `x` goes in at j. */
  method ShiftIn(players: array<int>, num: int, j: int, x: int)
    requires 0 <= j <= num < players.Length
    modifies players
    ensures players[..num + 1] == old(players[..num])[..j] + [x] + old(players[..num])[j..]
    ensures players[num + 1..] == old(players[num + 1..])
  {
    ghost var list := players[..num];
    var k := num;
    while k > j
      invariant j <= k <= num
      invariant players[..k] == list[..k]
      invariant players[k + 1 .. num + 1] == list[k..]
      invariant players[num + 1..] == old(players[num + 1..])
    {
      players[k] := players[k - 1];
      k := k - 1;
    }
    players[j] := x;
  }

  class MultiplayerGame {
    /** gameLocal.gameType, gameLocal.isClient and gameLocal.localClientNum. */
    const gameType: GameType
    const isClient: bool
    const localClientNum: int
    /** The player entities, indexed by client number. */
    var ents: Entities

    const playerState: array<PlayerState>
    const currentTourneyPlayer: array<int>
    const chatHistory: array<ChatLine>

    var gameState: GameState
    var nextState: GameState
    var nextStateSwitch: int
    var matchStartedTime: int
    var warmupEndTime: int
    var fragLimitTimeout: int
    var pingUpdateTime: int
    var lastWinner: int
    var startFragLimit: int

    var vote: VoteKind
    var voteValue: string
    var voteString: string
    var yesVotes: int
    var noVotes: int
    var voteTimeOut: int
    var voteExecTime: int
    var voted: bool

    var chatHistoryIndex: int
    var chatHistorySize: int
    var chatDataUpdated: bool
    var lastChatLineTime: int

    /** rankedPlayers[0 .. numRankedPlayers). */
    var rankedPlayers: seq<int>

    /** Every phase the server has been in since the last Clear, oldest first. */
    ghost var phaseLog: seq<GameState>

    /** The shape every operation keeps. */
    ghost predicate Valid()
      reads this, playerState, currentTourneyPlayer, chatHistory
    {
      && playerState.Length == MAX_CLIENTS
      && currentTourneyPlayer.Length == 2
      && chatHistory.Length == NUM_CHAT_NOTIFY
      && EntitiesValid(ents)
      && 0 <= chatHistorySize <= NUM_CHAT_NOTIFY && chatHistorySize <= chatHistoryIndex
    }

    /**
     * The server's phase bookkeeping: the phases so far form an allowed
     * history ending in the current one, and the scheduled change is one
     * Run may make.
     */
    ghost predicate PhasesValid()
      reads this
    {
      && PhaseHistory(phaseLog)
      && phaseLog[|phaseLog| - 1] == gameState
      && Scheduled(gameState, nextState)
    }

    function TourneySeats(): Seats
      reads this, currentTourneyPlayer
      requires currentTourneyPlayer.Length == 2
    {
      [currentTourneyPlayer[0], currentTourneyPlayer[1]]
    }

    /** The match as the ranking and leader rules see it. */
    function View(): MatchView
      reads this, playerState, currentTourneyPlayer
      requires currentTourneyPlayer.Length == 2
    {
      MatchView(gameType, ents, playerState[..], TourneySeats())
    }

    /** The part of the match CheckRespawns and CheckAbortGame change. */
    function RespawnState(): Respawn
      reads this, playerState, currentTourneyPlayer
      requires currentTourneyPlayer.Length == 2
    {
      Respawn(gameState, nextState, lastWinner, ents, playerState[..], TourneySeats())
    }

    /** The part of the match Run reads and changes, as one value. */
    ghost function Snap(): Match
      reads this`ents, this`gameState, this`nextState, this`nextStateSwitch, this`lastWinner, this`matchStartedTime,
            this`fragLimitTimeout, this`startFragLimit, this`warmupEndTime, this`phaseLog, playerState, currentTourneyPlayer
      requires currentTourneyPlayer.Length == 2
    {
      Match(ents, playerState[..], [currentTourneyPlayer[0], currentTourneyPlayer[1]], gameState, nextState, nextStateSwitch, lastWinner,
            matchStartedTime, fragLimitTimeout, startFragLimit, warmupEndTime, phaseLog)
    }

    /** The part of the match CheckVote changes, as one value. */
    function Votes(): VoteState
      reads this`vote, this`voteExecTime, this`chatHistoryIndex, this`chatHistorySize, chatHistory
    {
      VoteState(vote, voteExecTime, Ring())
    }

    /** The chat ring. */
    function Ring(): ChatRing
      reads this`chatHistoryIndex, this`chatHistorySize, chatHistory
    {
      ChatRing(chatHistory[..], chatHistoryIndex, chatHistorySize)
    }

    /** A fresh match after Reset: Clear, an empty chat history and no warmup end time. */
    constructor(gt: GameType, client: bool, localClient: int, entities: Entities)
      requires EntitiesValid(entities)
      ensures Valid() && fresh(playerState) && fresh(currentTourneyPlayer) && fresh(chatHistory)
      ensures gameType == gt && isClient == client && localClientNum == localClient && ents == entities
      ensures gameState == Inactive && nextState == Inactive && PhasesValid()
      ensures playerState[..] == seq(MAX_CLIENTS, _ => ZeroState)
      ensures TourneySeats() == [-1, -1] && lastWinner == -1 && startFragLimit == -1
      ensures vote == VoteNone && voteTimeOut == 0 && voteExecTime == 0
      ensures History(Ring()) == [] && warmupEndTime == 0
    {
      gameType := gt;
      isClient := client;
      localClientNum := localClient;
      ents := entities;
      playerState := new PlayerState[MAX_CLIENTS](_ => ZeroState);
      currentTourneyPlayer := new int[2](_ => -1);
      chatHistory := new ChatLine[NUM_CHAT_NOTIFY](_ => ChatLine("", 0));
      gameState := Inactive;
      nextState := Inactive;
      pingUpdateTime := 0;
      vote := VoteNone;
      voteTimeOut := 0;
      voteExecTime := 0;
      nextStateSwitch := 0;
      matchStartedTime := 0;
      lastWinner := -1;
      fragLimitTimeout := 0;
      voteValue := "";
      voteString := "";
      startFragLimit := -1;
      yesVotes := 0;
      noVotes := 0;
      voted := false;
      chatHistoryIndex := 0;
      chatHistorySize := 0;
      chatDataUpdated := true;
      lastChatLineTime := 0;
      rankedPlayers := [];
      warmupEndTime := 0;
      phaseLog := [Inactive];
    }

    /** Clear: back to INACTIVE with an empty score table, empty seats, no vote and blank chat lines. */
    method Clear()
      requires Valid()
      modifies this`gameState, this`nextState, this`pingUpdateTime, this`vote, this`voteTimeOut,
               this`voteExecTime, this`nextStateSwitch, this`matchStartedTime, this`lastWinner,
               this`fragLimitTimeout, this`voteValue, this`voteString, this`startFragLimit, this`phaseLog,
               playerState, currentTourneyPlayer, chatHistory
      ensures Valid() && PhasesValid()
      ensures gameState == Inactive && nextState == Inactive && pingUpdateTime == 0
      ensures vote == VoteNone && voteTimeOut == 0 && voteExecTime == 0 && nextStateSwitch == 0
      ensures matchStartedTime == 0 && lastWinner == -1 && fragLimitTimeout == 0 && startFragLimit == -1
      ensures voteValue == "" && voteString == ""
      ensures forall i :: 0 <= i < MAX_CLIENTS ==> playerState[i] == ZeroState
      ensures TourneySeats() == [-1, -1]
      ensures forall i :: 0 <= i < NUM_CHAT_NOTIFY ==>
                chatHistory[i] == old(chatHistory[i]).(line := "")
    {
      currentTourneyPlayer[0] := -1;
      currentTourneyPlayer[1] := -1;
      ClearScores();
      ClearChatLines();
      ClearPhaseFields();
      ClearVoteFields();
    }

    /** Clear's phase fields: back to INACTIVE, nothing scheduled, no winner and no limits recorded. */
    method ClearPhaseFields()
      modifies this`gameState, this`nextState, this`pingUpdateTime, this`nextStateSwitch,
               this`matchStartedTime, this`lastWinner, this`fragLimitTimeout, this`startFragLimit, this`phaseLog
      ensures gameState == Inactive && nextState == Inactive && pingUpdateTime == 0 && nextStateSwitch == 0
      ensures matchStartedTime == 0 && lastWinner == -1 && fragLimitTimeout == 0 && startFragLimit == -1
      ensures phaseLog == [Inactive]
    {
      gameState := Inactive;
      nextState := Inactive;
      pingUpdateTime := 0;
      nextStateSwitch := 0;
      matchStartedTime := 0;
      lastWinner := -1;
      fragLimitTimeout := 0;
      startFragLimit := -1;
      phaseLog := [Inactive];
    }

    /** Clear's vote fields: no vote, no deadlines, no vote text. */
    method ClearVoteFields()
      modifies this`vote, this`voteTimeOut, this`voteExecTime, this`voteValue, this`voteString
      ensures vote == VoteNone && voteTimeOut == 0 && voteExecTime == 0
      ensures voteValue == "" && voteString == ""
    {
      vote := VoteNone;
      voteTimeOut := 0;
      voteExecTime := 0;
      voteValue := "";
      voteString := "";
    }

    /** Clear's first loop: every score table entry back to all zero. */
    method ClearScores()
      requires playerState.Length == MAX_CLIENTS
      modifies playerState
      ensures forall i :: 0 <= i < MAX_CLIENTS ==> playerState[i] == ZeroState
    {
      var i := 0;
      while i < MAX_CLIENTS
        invariant 0 <= i <= MAX_CLIENTS
        invariant forall k :: 0 <= k < i ==> playerState[k] == ZeroState
      {
        playerState[i] := ZeroState;
        i := i + 1;
      }
    }

    /** Clear's second loop: every chat line's text blanked, its fade left as it was. */
    method ClearChatLines()
      requires chatHistory.Length == NUM_CHAT_NOTIFY
      modifies chatHistory
      ensures forall i :: 0 <= i < NUM_CHAT_NOTIFY ==> chatHistory[i] == old(chatHistory[i]).(line := "")
    {
      var i := 0;
      while i < NUM_CHAT_NOTIFY
        invariant 0 <= i <= NUM_CHAT_NOTIFY
        invariant forall k :: 0 <= k < i ==> chatHistory[k] == old(chatHistory[k]).(line := "")
        invariant forall k :: i <= k < NUM_CHAT_NOTIFY ==> chatHistory[k] == old(chatHistory[k])
      {
        chatHistory[i] := chatHistory[i].(line := "");
        i := i + 1;
      }
    }

    /** ServerClientConnect: the new client's score table entry starts all zero. */
    method ServerClientConnect(clientNum: int)
      requires Valid() && 0 <= clientNum < MAX_CLIENTS
      modifies playerState
      ensures Valid()
      ensures playerState[..] == old(playerState[..])[clientNum := ZeroState]
    {
      playerState[clientNum] := ZeroState;
    }

    /**
     * SpawnPlayer: the entry is zeroed; the server keeps the ingame flag,
     * stamps the spawn time and resets the tourney rank (to 1 when a
     * tourney match is already on).
     */
    method SpawnPlayer(clientNum: int, time: int)
      requires Valid() && 0 <= clientNum < MAX_CLIENTS
      requires !isClient ==> IsPlayer(ents, clientNum)
      modifies playerState, this`ents
      ensures Valid()
      ensures isClient ==> playerState[..] == old(playerState[..])[clientNum := ZeroState] && ents == old(ents)
      ensures !isClient ==>
        playerState[..] == old(playerState[..])[clientNum := ZeroState.(ingame := old(playerState[clientNum].ingame))]
      ensures !isClient ==>
        ents == old(ents)[clientNum := Some(old(ents[clientNum].value).(
                  spawnedTime := time,
                  tourneyRank := if gameType == GameTourney && gameState == GameOn then 1 else 0))]
    {
      var ingame := playerState[clientNum].ingame;
      playerState[clientNum] := ZeroState;
      if !isClient {
        var rank := 0;
        if gameType == GameTourney && gameState == GameOn {
          rank := rank + 1;
        }
        ents := ents[clientNum := Some(ents[clientNum].value.(spawnedTime := time, tourneyRank := rank))];
        playerState[clientNum] := playerState[clientNum].(ingame := ingame);
      }
    }

    /** The insertion test of UpdatePlayerRanks, as the source spells it out. */
    method Insert(i: int, j: int) returns (insert: bool)
      requires Valid() && IsPlayer(ents, i) && IsPlayer(ents, j)
      ensures insert == Beats(View(), i, j)
    {
      insert := false;
      var pi, pj := ents[i].value, ents[j].value;
      if gameType == GameTDM {
        if pi.team != pj.team {
          if playerState[i].teamFragCount > playerState[j].teamFragCount {
            insert := true;
          } else if playerState[i].teamFragCount == playerState[j].teamFragCount && pi.team < pj.team {
            insert := true;
          }
        } else if playerState[i].fragCount > playerState[j].fragCount {
          insert := true;
        }
      } else {
        insert := playerState[i].fragCount > playerState[j].fragCount;
      }
    }

    /**
     * UpdatePlayerRanks: an insertion sort of the clients that can play (in
     * a tourney the seated ones, in last man standing those with lives),
     * each new client going in front of the first one it beats.
     */
    method UpdatePlayerRanks()
      requires Valid()
      modifies this`rankedPlayers
      ensures rankedPlayers == Ranking(View())
    {
      ghost var v := View();
      var players := new int[MAX_CLIENTS];
      var num := 0;
      var i := 0;
      while i < |ents|
        invariant 0 <= num <= i <= |ents| && View() == v
        invariant players[..num] == RankPrefix(v, i)
      {
        num := RankOne(players, num, i);
        i := i + 1;
      }
      rankedPlayers := players[..num];
    }

    /** One iteration of UpdatePlayerRanks's loop: client `i` goes in at its place if it is ranked at all. */
    method RankOne(players: array<int>, num: int, i: int) returns (num': int)
      requires Valid() && players != currentTourneyPlayer && players.Length == MAX_CLIENTS
      requires 0 <= num <= i < |ents| && players[..num] == RankPrefix(View(), i)
      modifies players
      ensures num <= num' <= num + 1 && players[..num'] == RankPrefix(View(), i + 1)
    {
      num' := num;
      if ents[i].Some? && MpTypes.CanPlay(ents[i].value, playerState[i])
         && !(gameType == GameTourney && i != currentTourneyPlayer[0] && i != currentTourneyPlayer[1])
         && !(gameType == GameLastMan && playerState[i].fragCount == LASTMAN_NOLIVES)
      {
        assert Rankable(View(), i);
        var j := InsertSlot(players, num, i);
        ghost var prev := players[..num];
        ShiftIn(players, num, j, i);
        assert RankPrefix(View(), i + 1) == prev[..j] + [i] + prev[j..];
        num' := num + 1;
      } else {
        assert RankPrefix(View(), i + 1) == RankPrefix(View(), i);
      }
    }

    /** The inner loop of UpdatePlayerRanks: the first ranked client that client `i` beats, or the end. */
    method InsertSlot(players: array<int>, num: int, i: int) returns (j: int)
      requires Valid() && 0 <= num <= players.Length
      requires Rankable(View(), i) && AllRankable(View(), players[..num])
      ensures j == InsertPos(View(), players[..num], i)
    {
      ghost var list := players[..num];
      j := 0;
      while j < num
        invariant 0 <= j <= num
        invariant forall k :: 0 <= k < j ==> !Beats(View(), i, list[k])
      {
        var insert := Insert(i, players[j]);
        if insert {
          break;
        }
        j := j + 1;
      }
      InsertPosFirst(View(), list, i, j);
    }

    /**
     * NumActualClients: the players (or only those who can play), and the
     * players who can play on each team.
     */
    method NumActualClients(countSpectators: bool) returns (c: int, team0: int, team1: int)
      requires Valid()
      ensures c == ClientCount(ents, playerState[..], countSpectators, |ents|)
      ensures team0 == TeamCount(ents, playerState[..], 0, |ents|)
      ensures team1 == TeamCount(ents, playerState[..], 1, |ents|)
    {
      c, team0, team1 := 0, 0, 0;
      var i := 0;
      while i < |ents|
        invariant 0 <= i <= |ents|
        invariant c == ClientCount(ents, playerState[..], countSpectators, i)
        invariant team0 == TeamCount(ents, playerState[..], 0, i)
        invariant team1 == TeamCount(ents, playerState[..], 1, i)
      {
        if ents[i].Some? {
          var p := ents[i].value;
          if countSpectators || MpTypes.CanPlay(p, playerState[i]) {
            c := c + 1;
          }
          if MpTypes.CanPlay(p, playerState[i]) {
            if p.team == 0 {
              team0 := team0 + 1;
            } else {
              team1 := team1 + 1;
            }
          }
        }
        i := i + 1;
      }
    }

    /** EnoughClientsToPlay: two players who can play, and in TDM one on each team. */
    method EnoughClientsToPlay() returns (enough: bool)
      requires Valid()
      ensures enough == EnoughToPlay(gameType, ents, playerState[..])
    {
      var clients, team0, team1 := NumActualClients(false);
      if gameType == GameTDM {
        enough := clients >= 2 && team0 != 0 && team1 != 0;
      } else {
        enough := clients >= 2;
      }
    }

    /**
     * AllPlayersReady: enough players to start, and with warmup on every
     * player who can play (in a tourney every seated one) ready.
     */
    method AllPlayersReady(warmup: bool) returns (ready: bool)
      requires Valid()
      ensures ready == AllReady(gameType, ents, playerState[..], TourneySeats(), warmup)
    {
      var clients, team0, team1 := NumActualClients(false);
      if clients <= 1 {
        return false;
      }
      if gameType == GameTDM && (team0 == 0 || team1 == 0) {
        return false;
      }
      if !warmup {
        return true;
      }
      var i := 0;
      while i < |ents|
        invariant 0 <= i <= |ents|
        invariant ReadyUpTo(gameType, ents, playerState[..], TourneySeats(), i)
      {
        if !(gameType == GameTourney && i != currentTourneyPlayer[0] && i != currentTourneyPlayer[1]) && ents[i].Some? {
          var p := ents[i].value;
          if MpTypes.CanPlay(p, playerState[i]) && !IsReady(p) {
            ReadyUpToMeans(gameType, ents, playerState[..], TourneySeats(), |ents|);
            assert Plays(ents, playerState[..], i);
            return false;
          }
        }
        i := i + 1;
      }
      return true;
    }

    /** FragLeader's first pass: the highest score among the contenders, and each contender's score. */
    method HighScore() returns (high: int, frags: array<int>)
      requires Valid()
      ensures fresh(frags) && frags.Length == MAX_CLIENTS
      ensures high == High(View())
      ensures forall k :: 0 <= k < |ents| && Contender(View(), k) ==> frags[k] == Score(View(), k)
    {
      ghost var v := View();
      frags := new int[MAX_CLIENTS];
      high := FRAG_LEADER_FLOOR;
      var i := 0;
      while i < |ents|
        invariant 0 <= i <= |ents| && ents == v.ents
        invariant high == HighPrefix(v, i)
        invariant forall k :: 0 <= k < i && Contender(v, k) ==> frags[k] == Score(v, k)
      {
        if ents[i].Some? {
          var p := ents[i].value;
          var contends := MpTypes.CanPlay(p, playerState[i])
             && !(gameType == GameTourney && i != currentTourneyPlayer[0] && i != currentTourneyPlayer[1])
             && !p.lastManOver;
          assert contends == Contender(v, i);
          if contends {
            var fragc := if gameType == GameTDM then playerState[i].teamFragCount else playerState[i].fragCount;
            if fragc > high {
              high := fragc;
            }
            frags[i] := fragc;
          }
        }
        i := i + 1;
      }
    }

    /**
     * FragLeader: the highest score among the contenders, then every player
     * marked leader or not; returns the single leader, -1 on a tie (in TDM,
     * when both teams hold a top scorer).
     */
    method FragLeader() returns (leader: int)
      requires Valid()
      modifies this`ents
      ensures Valid()
      ensures ents == MarkLeaders(old(View()))
      ensures leader == FragLeaderOf(old(View()))
    {
      ghost var v := View();
      var high, frags := HighScore();
      var count := 0;
      var teamLead0, teamLead1 := false, false;
      leader := -1;
      var i := 0;
      ghost var marked := MarkLeaders(v);
      var e := ents;
      while i < |e|
        invariant 0 <= i <= |e| == |v.ents|
        invariant forall k :: 0 <= k < i ==> e[k] == marked[k]
        invariant forall k :: i <= k < |e| ==> e[k] == v.ents[k]
        invariant count == TopCount(v, i) && leader == LastTop(v, i)
        invariant gameType == GameTDM ==> teamLead0 == TeamLeads(v, i, 0) && teamLead1 == TeamLeads(v, i, 1)
      {
        if e[i].Some? {
          var p := e[i].value;
          var isLeader := MpTypes.CanPlay(p, playerState[i])
             && !(gameType == GameTourney && i != currentTourneyPlayer[0] && i != currentTourneyPlayer[1])
             && !p.lastManOver && !p.spectating && frags[i] >= high;
          assert isLeader == Top(v, i);
          if isLeader {
            leader := i;
            count := count + 1;
            if gameType == GameTDM {
              if p.team == 0 {
                teamLead0 := true;
              } else {
                teamLead1 := true;
              }
            }
          }
          e := e[i := Some(p.(isLeader := isLeader))];
        }
        i := i + 1;
      }
      ents := e;
      assert ents == marked;
      if gameType != GameTDM {
        if count > 1 {
          leader := -1;
        }
      } else if teamLead0 && teamLead1 {
        leader := -1;
      }
    }

    /**
     * FragLimitHit: the leader once it reaches the frag limit, or in last
     * man standing once nobody else who can play has frags left; -1 otherwise.
     */
    method FragLimitHit(fragLimit: int) returns (winner: int)
      requires Valid()
      modifies this`ents
      ensures Valid()
      ensures ents == MarkLeaders(old(View()))
      ensures winner == FragLimitWinner(old(View()), fragLimit)
    {
      ghost var v := View();
      var leader := FragLeader();
      if leader == -1 {
        return -1;
      }
      var limit := if fragLimit <= 0 then MP_PLAYER_MAXFRAGS else fragLimit;
      if gameType == GameLastMan {
        var i := 0;
        while i < |ents|
          invariant 0 <= i <= |ents| == |v.ents|
          invariant !OthersHaveLives(v, leader, i)
          invariant forall k :: 0 <= k < |ents| ==> (ents[k].Some? <==> v.ents[k].Some?)
          invariant forall k :: 0 <= k < |ents| && ents[k].Some? ==>
                      MpTypes.CanPlay(ents[k].value, playerState[k]) == MpTypes.CanPlay(v.ents[k].value, v.ps[k])
        {
          if ents[i].Some? && MpTypes.CanPlay(ents[i].value, playerState[i]) && i != leader
             && playerState[i].fragCount > 0
          {
            OthersHaveLivesExists(v, leader, |v.ents|);
            assert IsPlayer(v.ents, i) && MpTypes.CanPlay(v.ents[i].value, v.ps[i]);
            return -1;
          }
          i := i + 1;
        }
        return leader;
      } else if gameType == GameTDM {
        if playerState[leader].teamFragCount >= limit {
          return leader;
        }
      } else {
        if playerState[leader].fragCount >= limit {
          return leader;
        }
      }
      return -1;
    }

    /** TimeLimitHit: a time limit is set and the match has run for that many minutes. */
    method TimeLimitHit(timeLimit: int, time: int) returns (hit: bool)
      ensures hit <==> timeLimit != 0 && time >= matchStartedTime + timeLimit * 60000
    {
      hit := false;
      if timeLimit != 0 {
        if time >= matchStartedTime + timeLimit * 60000 {
          hit := true;
        }
      }
    }

    /** UpdateWinsLosses: one win for the winner (and in TDM the winner's team); it becomes the last winner. */
    method UpdateWinsLosses(winner: int)
      requires Valid() && (winner == -1 || IsPlayer(ents, winner))
      modifies playerState, this`lastWinner
      ensures Valid()
      ensures playerState[..] == WinsCounted(gameType, ents, old(playerState[..]), winner)
      ensures lastWinner == winner
    {
      ghost var want := WinsCounted(gameType, ents, playerState[..], winner);
      ghost var before := playerState[..];
      if winner != -1 {
        var i := 0;
        while i < |ents|
          invariant 0 <= i <= |ents|
          invariant forall k :: 0 <= k < i ==> playerState[k] == want[k]
          invariant forall k :: i <= k < MAX_CLIENTS ==> playerState[k] == before[k]
        {
          if ents[i].Some? {
            var player := ents[i].value;
            if gameType == GameTDM {
              if i == winner || player.team == ents[winner].value.team {
                playerState[i] := playerState[i].(wins := playerState[i].wins + 1);
              }
            } else if i == winner {
              playerState[i] := playerState[i].(wins := playerState[i].wins + 1);
            }
          }
          i := i + 1;
        }
      }
      assert playerState[..] == want;
      if winner != -1 {
        lastWinner := winner;
      } else {
        lastWinner := -1;
      }
    }

    /** TeamScore: the scorer's frags and the team score of every player of `team` move by delta. */
    method TeamScore(entityNumber: int, team: int, delta: int)
      requires Valid() && 0 <= entityNumber < MAX_CLIENTS
      modifies playerState
      ensures Valid()
      ensures playerState[..] == TeamScored(old(playerState[..]), ents, entityNumber, team, delta)
    {
      ghost var before := playerState[..];
      ghost var want := TeamScored(before, ents, entityNumber, team, delta);
      playerState[entityNumber] := playerState[entityNumber].(fragCount := playerState[entityNumber].fragCount + delta);
      var i := 0;
      while i < |ents|
        invariant 0 <= i <= |ents|
        invariant forall k :: 0 <= k < i ==> playerState[k] == want[k]
        invariant forall k :: i <= k < MAX_CLIENTS ==>
          playerState[k] == before[k].(fragCount := before[k].fragCount + (if k == entityNumber then delta else 0))
      {
        if ents[i].Some? && ents[i].value.team == team {
          playerState[i] := playerState[i].(teamFragCount := playerState[i].teamFragCount + delta);
        }
        i := i + 1;
      }
      assert playerState[..] == want;
    }

    /**
     * PlayerDeath on the server: the frag bookkeeping of a death; killer is
     * -1 when the world killed.
     */
    method PlayerDeath(dead: int, killer: int, telefrag: bool)
      requires Valid() && !isClient
      requires IsPlayer(ents, dead) && (killer == -1 || IsPlayer(ents, killer))
      modifies playerState
      ensures Valid()
      ensures playerState[..] == DeathScored(gameType, ents, old(playerState[..]), dead, killer)
    {
      if killer != -1 {
        if gameType == GameLastMan {
          playerState[dead] := playerState[dead].(fragCount := playerState[dead].fragCount - 1);
        } else if gameType == GameTDM {
          var k := ents[killer].value;
          if killer == dead || k.team == ents[dead].value.team {
            TeamScore(killer, k.team, -1);
          } else {
            TeamScore(killer, k.team, 1);
          }
        } else {
          playerState[killer] := playerState[killer].(
            fragCount := playerState[killer].fragCount + (if killer == dead then -1 else 1));
        }
      } else {
        playerState[dead] := playerState[dead].(fragCount := playerState[dead].fragCount - 1);
      }
    }

    /** PlayerVote: record a client's vote mark. */
    method PlayerVote(clientNum: int, v: PlayerVote)
      requires Valid() && 0 <= clientNum < MAX_CLIENTS
      modifies playerState
      ensures Valid()
      ensures playerState[..] == old(playerState[..])[clientNum := old(playerState[clientNum]).(vote := v)]
    {
      playerState[clientNum] := playerState[clientNum].(vote := v);
    }

    /** ServerSpectate(on) on player `i`, reduced to the spectating flag. */
    method ServerSpectate(i: int, on: bool)
      requires Valid() && IsPlayer(ents, i)
      modifies this`ents
      ensures Valid()
      ensures ents == old(ents)[i := Some(Spectate(old(ents[i].value), on))]
    {
      ents := ents[i := Some(Spectate(ents[i].value, on))];
    }

    /** NewState(GAMEREVIEW)'s loop: every player is no longer force-readied and spectates. */
    method ReviewPlayers()
      requires Valid()
      modifies this`ents
      ensures Valid() && ents == ReviewEnts(old(ents))
    {
      ghost var want := ReviewEnts(ents);
      var e := ents;
      var i := 0;
      while i < |e|
        invariant 0 <= i <= |e| == |want|
        invariant forall k :: 0 <= k < i ==> e[k] == want[k]
        invariant forall k :: i <= k < |e| ==> e[k] == old(ents)[k]
      {
        if e[i].Some? {
          var p := e[i].value.(forcedReady := false);
          e := e[i := Some(Spectate(p, true))];
        }
        i := i + 1;
      }
      assert e == want;
      ents := e;
    }

    /**
     * NewState(GAMEREVIEW, winner): nothing stays scheduled, every player
     * spectates, and the winner (-1 for none) is credited.
     */
    method EnterReview(winner: int)
      requires Valid() && gameState != GameReview && (winner == -1 || IsPlayer(ents, winner))
      modifies this`ents, this`gameState, this`nextState, this`lastWinner, playerState, this`phaseLog
      ensures Valid() && gameState == GameReview && nextState == Inactive
      ensures phaseLog == old(phaseLog) + [GameReview]
      ensures ents == ReviewEnts(old(ents)) && lastWinner == winner
      ensures playerState[..] == WinsCounted(gameType, old(ents), old(playerState[..]), winner)
    {
      nextState := Inactive;
      ReviewPlayers();
      ReviewKeepsWins(gameType, old(ents), playerState[..], winner);
      UpdateWinsLosses(winner);
      gameState := GameReview;
      phaseLog := phaseLog + [GameReview];
    }

    /** NewState(GAMEON)'s loop over the players, with si_fragLimit as `fragLimit`. */
    method StartPlayers(fragLimit: int)
      requires Valid()
      modifies this`ents, playerState
      ensures Valid()
      ensures ents == GameOnEnts(gameType, old(ents), old(playerState[..]), TourneySeats())
      ensures playerState[..] == GameOnScores(gameType, old(ents), old(playerState[..]), TourneySeats(), fragLimit)
    {
      ghost var e0, ps0, seats := ents, playerState[..], TourneySeats();
      var e := ents;
      var i := 0;
      while i < |e|
        invariant 0 <= i <= |e| == |e0| && ents == e0
        invariant forall k :: 0 <= k < i ==>
          e[k] == if e0[k].None? then None else Some(GameOnPlayer(gameType, e0[k].value, ps0[k], Seated(seats, k)))
        invariant forall k :: i <= k < |e| ==> e[k] == e0[k]
        invariant forall k :: 0 <= k < i ==>
          playerState[k] == StartScore(gameType, ps0[k], StartsFresh(gameType, e0, seats, k), fragLimit)
        invariant forall k :: i <= k < MAX_CLIENTS ==> playerState[k] == ps0[k]
      {
        if e[i].Some? {
          var p, st := LineUp(i, fragLimit);
          playerState[i] := st;
          e := e[i := Some(p)];
        }
        i := i + 1;
      }
      assert e == GameOnEnts(gameType, e0, ps0, seats);
      assert playerState[..] == GameOnScores(gameType, e0, ps0, seats, fragLimit);
      GameOnEntsValid(gameType, e0, ps0, seats);
      ents := e;
    }

    /**
     * One iteration of NewState(GAMEON)'s loop: player `i`'s new entity and
     * its new score table entry, which the loop stores.
     */
    method LineUp(i: int, fragLimit: int) returns (p: Player, st: PlayerState)
      requires Valid() && IsPlayer(ents, i)
      ensures p == GameOnPlayer(gameType, ents[i].value, playerState[i], Seated(TourneySeats(), i))
      ensures st == StartScore(gameType, playerState[i], StartsFresh(gameType, ents, TourneySeats(), i), fragLimit)
    {
      var p0 := ents[i].value;
      st := playerState[i];
      var present := MpTypes.CanPlay(p0, st);
      if gameType == GameTourney && currentTourneyPlayer[0] != i && currentTourneyPlayer[1] != i {
        p := p0.(isLeader := false, spectating := true, tourneyRank := p0.tourneyRank + 1, lastManPresent := present);
      } else {
        var startingCount := if gameType == GameLastMan then fragLimit else 0;
        st := st.(fragCount := startingCount, teamFragCount := startingCount);
        if !p0.wantSpectate {
          p := p0.(isLeader := false, spectating := false, lastManPresent := present,
                   tourneyRank := if gameType == GameTourney then 0 else p0.tourneyRank);
        } else {
          p := p0.(isLeader := false, lastManPresent := present);
        }
      }
    }

    /** NewState(GAMEON): the match clock starts, no end delay runs, and the players are lined up. */
    method EnterGameOn(time: int, fragLimit: int)
      requires Valid()
      modifies this`ents, playerState, this`matchStartedTime, this`fragLimitTimeout, this`startFragLimit
      ensures Valid()
      ensures ents == GameOnEnts(gameType, old(ents), old(playerState[..]), TourneySeats())
      ensures playerState[..] == GameOnScores(gameType, old(ents), old(playerState[..]), TourneySeats(), fragLimit)
      ensures matchStartedTime == time && fragLimitTimeout == 0 && startFragLimit == fragLimit
    {
      matchStartedTime := time;
      fragLimitTimeout := 0;
      StartPlayers(fragLimit);
      startFragLimit := fragLimit;
    }

    /**
     * NewState(news, winner): enter phase `news` at `time`. Entering GameOn
     * lines up the players, GameReview credits `winner` (-1 for none) and
     * sends everyone to spectate, Countdown fixes the warmup end time.
     */
    method NewState(news: GameState, winner: int, time: int, settings: Settings)
      requires Valid() && !isClient && news != gameState
      requires winner == -1 || IsPlayer(ents, winner)
      modifies this`ents, playerState, this`gameState, this`nextState, this`lastWinner, this`matchStartedTime,
               this`fragLimitTimeout, this`startFragLimit, this`warmupEndTime, this`phaseLog
      ensures Valid() && gameState == news && phaseLog == old(phaseLog) + [news]
      ensures news == GameOn ==>
        && ents == GameOnEnts(gameType, old(ents), old(playerState[..]), TourneySeats())
        && playerState[..] == GameOnScores(gameType, old(ents), old(playerState[..]), TourneySeats(), settings.fragLimit)
        && matchStartedTime == time && fragLimitTimeout == 0 && startFragLimit == settings.fragLimit
      ensures news == GameReview ==>
        && nextState == Inactive && ents == ReviewEnts(old(ents)) && lastWinner == winner
        && playerState[..] == WinsCounted(gameType, old(ents), old(playerState[..]), winner)
      ensures news == Countdown ==> warmupEndTime == time + 1000 * settings.countDown
      ensures news != GameOn && news != GameReview ==> ents == old(ents) && playerState[..] == old(playerState[..])
      ensures news != GameReview ==> nextState == old(nextState) && lastWinner == old(lastWinner)
      ensures news != GameOn ==>
        fragLimitTimeout == old(fragLimitTimeout) && matchStartedTime == old(matchStartedTime)
        && startFragLimit == old(startFragLimit)
      ensures news != Countdown ==> warmupEndTime == old(warmupEndTime)
      ensures Snap() == Entered(gameType, old(Snap()), news, winner, time, settings)
    {
      if news == GameOn {
        EnterGameOn(time, settings.fragLimit);
      } else if news == GameReview {
        EnterReview(winner);
        return;
      } else if news == Countdown {
        warmupEndTime := time + 1000 * settings.countDown;
      }
      gameState := news;
      phaseLog := phaseLog + [news];
    }

    /** FillTourneySlots' inner scan: the waiting player the seats as they stand would take, or -1. */
    method BestWaitingScan() returns (rankmaxindex: int)
      requires Valid()
      ensures rankmaxindex == BestWaiting(ents, TourneySeats(), |ents|)
    {
      var rankmax := -1;
      rankmaxindex := -1;
      var j := 0;
      while j < |ents|
        invariant 0 <= j <= |ents|
        invariant rankmaxindex == BestWaiting(ents, TourneySeats(), j)
        invariant rankmax == if rankmaxindex == -1 then -1 else Rank(ents, rankmaxindex)
      {
        if ents[j].Some? && currentTourneyPlayer[0] != j && currentTourneyPlayer[1] != j {
          var p := ents[j].value;
          if !p.wantSpectate && p.tourneyRank >= rankmax {
            // when ranks are equal, the longer time in game wins
            if !(p.tourneyRank == rankmax && p.spawnedTime > ents[rankmaxindex].value.spawnedTime) {
              rankmax := p.tourneyRank;
              rankmaxindex := j;
            }
          }
        }
        j := j + 1;
      }
    }

    /** FillTourneySlots: each empty seat in turn gets the best waiting player, or stays -1. */
    method FillTourneySlots()
      requires Valid()
      modifies currentTourneyPlayer
      ensures Valid() && TourneySeats() == FillSlots(ents, old(TourneySeats()))
    {
      ghost var want := FillSlots(ents, TourneySeats());
      ghost var seats0 := TourneySeats();
      for i := 0 to 2
        invariant forall k :: 0 <= k < i ==> currentTourneyPlayer[k] == want[k]
        invariant forall k :: i <= k < 2 ==> currentTourneyPlayer[k] == seats0[k]
      {
        if currentTourneyPlayer[i] == -1 {
          var best := BestWaitingScan();
          currentTourneyPlayer[i] := best;
        }
      }
    }

    /** UpdateTourneyLine's inner scan: the first waiting player of the highest rank under `globalmax`. */
    method NextInLineScan(globalmax: int) returns (imax: int)
      requires Valid()
      ensures imax == NextInLine(ents, TourneySeats(), globalmax, |ents|)
    {
      var max := -1;
      imax := -1;
      var i := 0;
      while i < |ents|
        invariant 0 <= i <= |ents|
        invariant imax == NextInLine(ents, TourneySeats(), globalmax, i)
        invariant max == if imax == -1 then -1 else Rank(ents, imax)
      {
        if currentTourneyPlayer[0] != i && currentTourneyPlayer[1] != i && ents[i].Some? && !ents[i].value.wantSpectate {
          var p := ents[i].value;
          if p.tourneyRank > max && (globalmax == -1 || p.tourneyRank < globalmax) {
            imax := i;
            max := p.tourneyRank;
          }
        }
        i := i + 1;
      }
    }

    /**
     * UpdateTourneyLine: in a tourney, tell each waiting player its place in
     * line; the messages are returned instead of sent.
     */
    method UpdateTourneyLine() returns (msgs: seq<LineMsg>)
      requires Valid() && !isClient
      ensures msgs == TourneyLine(gameType, ents, TourneySeats())
    {
      msgs := [];
      if gameType != GameTourney {
        return;
      }
      ghost var all := LineFrom(ents, TourneySeats(), -1, 1);
      var globalmax := -1;
      var j := 1;
      while j <= |ents|
        invariant 1 <= j <= |ents| + 1
        invariant msgs + LineFrom(ents, TourneySeats(), globalmax, j) == all
      {
        var imax := NextInLineScan(globalmax);
        if imax == -1 {
          break;
        }
        msgs := msgs + [LineMsg(imax, j)];
        globalmax := ents[imax].value.tourneyRank;
        j := j + 1;
      }
    }

    /**
     * CycleTourneyPlayers: last round's winner keeps a seat, the empty seats
     * are filled, the seated players play and everyone else spectates; the
     * new line is returned.
     */
    method CycleTourneyPlayers() returns (msgs: seq<LineMsg>)
      requires Valid() && !isClient
      modifies currentTourneyPlayer, this`ents
      ensures Valid()
      ensures TourneySeats() == FillSlots(old(ents), CycleSeats(old(ents), lastWinner))
      ensures ents == Cycled(old(ents), TourneySeats())
      ensures msgs == TourneyLine(gameType, ents, TourneySeats())
    {
      currentTourneyPlayer[0] := -1;
      currentTourneyPlayer[1] := -1;
      if lastWinner != -1 && 0 <= lastWinner < |ents| && ents[lastWinner].Some? {
        currentTourneyPlayer[0] := lastWinner;
      }
      FillTourneySlots();
      SeatPlayers();
      msgs := UpdateTourneyLine();
    }

    /** CycleTourneyPlayers' loop: the seated players play, every other player spectates. */
    method SeatPlayers()
      requires Valid()
      modifies this`ents
      ensures Valid() && ents == Cycled(old(ents), TourneySeats())
    {
      ghost var want := Cycled(ents, TourneySeats());
      var e := ents;
      var i := 0;
      while i < |e|
        invariant 0 <= i <= |e| == |want|
        invariant forall k :: 0 <= k < i ==> e[k] == want[k]
        invariant forall k :: i <= k < |e| ==> e[k] == old(ents)[k]
      {
        if currentTourneyPlayer[0] == i || currentTourneyPlayer[1] == i {
          if e[i].Some? {
            e := e[i := Some(Spectate(e[i].value, false))];
          }
        } else if e[i].Some? {
          e := e[i := Some(Spectate(e[i].value, true))];
        }
        i := i + 1;
      }
      assert e == want;
      ents := e;
    }

    /** CheckAbortGame in a tourney warmup: a seat whose player left or spectates is freed. */
    method FreeGoneSeats()
      requires Valid()
      modifies currentTourneyPlayer
      ensures Valid()
      ensures TourneySeats() == [if SeatGone(ents, old(currentTourneyPlayer[0])) then -1 else old(currentTourneyPlayer[0]),
                                 if SeatGone(ents, old(currentTourneyPlayer[1])) then -1 else old(currentTourneyPlayer[1])]
    {
      ghost var seats0 := TourneySeats();
      for i := 0 to 2
        invariant forall k :: 0 <= k < i ==> currentTourneyPlayer[k] == if SeatGone(ents, seats0[k]) then -1 else seats0[k]
        invariant forall k :: i <= k < 2 ==> currentTourneyPlayer[k] == seats0[k]
      {
        if SeatGone(ents, currentTourneyPlayer[i]) {
          currentTourneyPlayer[i] := -1;
        }
      }
    }

    /**
     * CheckAbortGame: frees gone tourney seats during warmup, and sends a
     * running match to GameReview when a tourney seat is gone or there are
     * not enough players.
     */
    method CheckAbortGame()
      requires Valid() && !isClient
      modifies this`ents, this`gameState, this`nextState, this`lastWinner, playerState, currentTourneyPlayer, this`phaseLog
      ensures Valid()
      ensures RespawnState() == AbortChecked(gameType, old(RespawnState()))
      ensures phaseLog == if gameState == old(gameState) then old(phaseLog) else old(phaseLog) + [gameState]
    {
      if gameType == GameTourney && gameState == Warmup {
        FreeGoneSeats();
      }
      if gameState != Countdown && gameState != GameOn && gameState != SuddenDeath {
        return;
      }
      ghost var ps0 := playerState[..];
      if gameType == GameTourney {
        if SeatGone(ents, currentTourneyPlayer[0]) || SeatGone(ents, currentTourneyPlayer[1]) {
          EnterReview(-1);
          NoWinnerNoWins(gameType, old(ents), ps0);
        }
      } else {
        var enough := EnoughClientsToPlay();
        if !enough {
          EnterReview(-1);
          NoWinnerNoWins(gameType, old(ents), ps0);
        }
      }
    }

    /** CheckRespawns' last-man scan: nobody who can play still has lives. */
    method NoneLeftNow() returns (none: bool)
      requires Valid()
      ensures none == NoneLeft(ents, playerState[..], |ents|)
    {
      var j := 0;
      while j < |ents|
        invariant 0 <= j <= |ents|
        invariant NoneLeft(ents, playerState[..], j)
      {
        if ents[j].Some? && MpTypes.CanPlay(ents[j].value, playerState[j]) && !ents[j].value.lastManOver {
          break;
        }
        j := j + 1;
      }
      none := j == |ents|;
      if !none {
        NoneLeftMeans(ents, playerState[..], |ents|);
        assert Plays(ents, playerState[..], j);
      }
    }

    /** CheckRespawns' last man standing branch for player `i`, who wants back in. */
    method LastManRespawn(i: int)
      requires Valid() && IsPlayer(ents, i)
      modifies this`ents, playerState
      ensures Valid()
      ensures RespawnState() == LastManStep(fragLimitTimeout, old(RespawnState()), i)
    {
      var p := ents[i].value;
      if gameState == Warmup || gameState == Countdown {
        ServerSpectate(i, false);
      } else if gameState == GameOn || gameState == SuddenDeath {
        if gameState == GameOn && playerState[i].fragCount > 0 && p.lastManPresent {
          ServerSpectate(i, false);
        } else if p.lastManPlayAgain && p.lastManPresent {
          ServerSpectate(i, false);
        } else if fragLimitTimeout == 0 && !p.lastManOver {
          // out of lives: marked out, scored LASTMAN_NOLIVES and sent to spectate
          LoseLastLife(i);
        }
      }
    }

    /** CheckRespawns for a last-man player out of lives. */
    method LoseLastLife(i: int)
      requires Valid() && IsPlayer(ents, i)
      modifies this`ents, playerState
      ensures Valid()
      ensures RespawnState() == OutOfLives(old(RespawnState()), i)
    {
      var p := ents[i].value;
      ghost var s := RespawnState();
      ghost var out := s.(ents := s.ents[i := Some(Spectate(p.(lastManOver := true), true))],
                          ps := s.ps[i := s.ps[i].(fragCount := LASTMAN_NOLIVES)]);
      ents := ents[i := Some(p.(lastManOver := true))];
      playerState[i] := playerState[i].(fragCount := LASTMAN_NOLIVES);
      ServerSpectate(i, true);
      assert RespawnState() == out;
      var none := NoneLeftNow();
      if none {
        // everyone is out: this one stays in so that the match can end
        ServerSpectate(i, false);
        assert RespawnState() == SetSpectate(out, i, false);
      }
    }

    /** The tourney branch of CheckRespawns for player `i`, who wants back in. */
    method TourneyRespawn(i: int)
      requires Valid() && IsPlayer(ents, i)
      modifies this`ents, currentTourneyPlayer
      ensures Valid()
      ensures var s := old(RespawnState());
        RespawnState() ==
          if Seated(s.seats, i) then
            (if Joinable(s.gs) then SetSpectate(s, i, false) else s)
          else if s.gs == Warmup then
            var t := s.(seats := FillSlots(s.ents, s.seats));
            if Seated(t.seats, i) then SetSpectate(t, i, false) else t
          else s
    {
      if i == currentTourneyPlayer[0] || i == currentTourneyPlayer[1] {
        if gameState == Warmup || gameState == Countdown || gameState == GameOn {
          ServerSpectate(i, false);
        }
      } else if gameState == Warmup {
        // empty seats are filled first
        FillTourneySlots();
        if i == currentTourneyPlayer[0] || i == currentTourneyPlayer[1] {
          ServerSpectate(i, false);
        }
      }
    }

    /** The branch of CheckRespawns for player `i` when it wants back in or is the forced one. */
    method WantedRespawn(i: int, spectator: int)
      requires Valid() && !isClient && IsPlayer(ents, i)
      requires MpTypes.WantRespawn(ents[i].value, playerState[i]) || i == spectator
      modifies this`ents, this`gameState, this`nextState, this`lastWinner, playerState, currentTourneyPlayer, this`phaseLog
      ensures Valid()
      ensures RespawnState() == RespawnStep(gameType, fragLimitTimeout, old(RespawnState()), i, spectator)
      ensures phaseLog == if gameState == old(gameState) then old(phaseLog) else old(phaseLog) + [gameState]
    {
      if gameState == SuddenDeath && gameType != GameLastMan {
        // no respawns while the end game delay runs
        if fragLimitTimeout == 0 {
          if gameType == GameTDM || ents[i].value.isLeader {
            ServerSpectate(i, false);
          } else {
            // sudden death is rolling and this player does not lead: spectate
            ServerSpectate(i, true);
            CheckAbortGame();
          }
        }
      } else if gameType == GameDM || gameType == GameTDM {
        if gameState == Warmup || gameState == Countdown || gameState == GameOn {
          ServerSpectate(i, false);
        }
      } else if gameType == GameTourney {
        TourneyRespawn(i);
      } else if gameType == GameLastMan {
        LastManRespawn(i);
      }
    }

    /** One iteration of CheckRespawns, for client `i`; `spectator` is the forced client or -1. */
    method RespawnClient(i: int, spectator: int)
      requires Valid() && !isClient && 0 <= i < |ents|
      modifies this`ents, this`gameState, this`nextState, this`lastWinner, playerState, currentTourneyPlayer, this`phaseLog
      ensures Valid()
      ensures RespawnState() == RespawnStep(gameType, fragLimitTimeout, old(RespawnState()), i, spectator)
      ensures phaseLog == if gameState == old(gameState) then old(phaseLog) else old(phaseLog) + [gameState]
    {
      if ents[i].None? {
        return;
      }
      var p := ents[i].value;
      if MpTypes.WantRespawn(p, playerState[i]) || i == spectator {
        WantedRespawn(i, spectator);
      } else if p.wantSpectate && !p.spectating {
        // a player who goes to spectate during a game has the score reset
        playerState[i] := playerState[i].(fragCount := 0);
        ServerSpectate(i, true);
        var _ := UpdateTourneyLine();
        CheckAbortGame();
      }
    }

    /**
     * CheckRespawns: every client in turn, as RespawnStep says. The phase
     * only changes by an abort of a running match to GameReview, which
     * cancels the scheduled change and keeps the phase history allowed.
     */
    method CheckRespawns(spectator: int)
      requires Valid() && !isClient
      modifies this`ents, this`gameState, this`nextState, this`lastWinner, playerState, currentTourneyPlayer, this`phaseLog
      ensures Valid()
      ensures RespawnState() == RespawnsUpTo(gameType, fragLimitTimeout, old(RespawnState()), spectator, |old(ents)|)
      ensures AbortOnly(old(RespawnState()), RespawnState())
      ensures phaseLog == if gameState == old(gameState) then old(phaseLog) else old(phaseLog) + [gameState]
      ensures old(PhasesValid()) ==> PhasesValid()
      ensures Snap() == Respawned(gameType, old(Snap()), spectator)
    {
      ghost var s0 := RespawnState();
      ghost var log0 := phaseLog;
      var i := 0;
      while i < |ents|
        invariant Valid() && 0 <= i <= |ents| == |s0.ents|
        invariant RespawnState() == RespawnsUpTo(gameType, fragLimitTimeout, s0, spectator, i)
        invariant AbortOnly(s0, RespawnState())
        invariant phaseLog == if gameState == s0.gs then log0 else log0 + [gameState]
      {
        ghost var t := RespawnState();
        RespawnClient(i, spectator);
        StepPhase(gameType, fragLimitTimeout, t, i, spectator);
        AbortOnlyTrans(s0, t, RespawnState());
        i := i + 1;
      }
      if old(PhasesValid()) && gameState != s0.gs {
        ExtendHistory(log0, gameState);
      }
    }

    /** ClearChatData: no chat line is shown any more. */
    method ClearChatData()
      requires Valid()
      modifies this`chatHistoryIndex, this`chatHistorySize, this`chatDataUpdated
      ensures Valid() && History(Ring()) == [] && chatDataUpdated
      ensures chatHistoryIndex == 0 && chatHistorySize == 0
    {
      chatHistoryIndex := 0;
      chatHistorySize := 0;
      chatDataUpdated := true;
    }

    /** AddChatLine at `time`: the line goes in the ring with a full fade (the console echo is left out). */
    method AddChatLine(text: string, time: int)
      requires Valid()
      modifies chatHistory, this`chatHistoryIndex, this`chatHistorySize, this`chatDataUpdated, this`lastChatLineTime
      ensures Valid() && Ring() == AddLine(old(Ring()), text)
      ensures chatDataUpdated && lastChatLineTime == time
    {
      var slot := chatHistoryIndex % NUM_CHAT_NOTIFY;
      chatHistory[slot] := ChatLine(text, CHAT_LINE_FADE);
      chatHistoryIndex := chatHistoryIndex + 1;
      if chatHistorySize < NUM_CHAT_NOTIFY {
        chatHistorySize := chatHistorySize + 1;
      }
      chatDataUpdated := true;
      lastChatLineTime := time;
    }

    /** DrawChat's fade loop: every shown line loses one step, and those below zero stop being shown. */
    method FadeChat()
      requires Valid()
      modifies chatHistory, this`chatHistorySize
      ensures Valid() && Ring() == Tick(old(Ring()))
    {
      ghost var r0 := Ring();
      ghost var h := History(r0);
      ghost var base := chatHistoryIndex - chatHistorySize;
      FadedEnds(r0);
      var i := chatHistoryIndex - chatHistorySize;
      while i < chatHistoryIndex
        invariant base <= i <= chatHistoryIndex == r0.index && i - base <= r0.size
        invariant chatHistorySize == r0.size - Expiring(h, i - base)
        invariant chatHistory[..] == Faded(r0, i - base)
      {
        var slot := i % NUM_CHAT_NOTIFY;
        FadedStep(r0, i - base);
        var line := chatHistory[slot];
        assert line == h[i - base];
        chatHistory[slot] := line.(fade := line.fade - 1);
        assert chatHistory[..] == Faded(r0, i - base + 1);
        if chatHistory[slot].fade < 0 {
          // this assumes the removals are always at the beginning
          chatHistorySize := chatHistorySize - 1;
        }
        i := i + 1;
      }
      ExpiringBound(h, r0.size);
    }

    /** DrawChat's second loop: the text and alpha of every shown line, oldest first. */
    method ChatRowsNow() returns (rows: seq<ChatRow>)
      requires Valid()
      ensures rows == ChatRows(History(Ring()))
    {
      ghost var want := ChatRows(History(Ring()));
      var base := chatHistoryIndex - chatHistorySize;
      rows := [];
      var i := base;
      while i < chatHistoryIndex
        invariant base <= i <= chatHistoryIndex
        invariant rows == want[..i - base]
      {
        var l := chatHistory[i % NUM_CHAT_NOTIFY];
        // the gui knows no alpha above 4
        rows := rows + [ChatRow(l.line, if l.fade < 4 then l.fade else 4)];
        i := i + 1;
      }
    }

    /**
     * DrawChat at `time`: once CHAT_FADE_TIME has passed since the last
     * change, the shown lines fade one step; when the chat changed, the rows
     * for the chat GUI (blank past the shown lines) are returned, else none.
     */
    method DrawChat(time: int) returns (rows: Option<seq<ChatRow>>)
      requires Valid()
      modifies chatHistory, this`chatHistorySize, this`chatDataUpdated, this`lastChatLineTime
      ensures Valid() && !chatDataUpdated
      ensures var fading := time - old(lastChatLineTime) > CHAT_FADE_TIME;
        && Ring() == (if fading && old(chatHistorySize) > 0 then Tick(old(Ring())) else old(Ring()))
        && lastChatLineTime == (if fading then time else old(lastChatLineTime))
        && rows == if old(chatDataUpdated) || (fading && old(chatHistorySize) > 0)
                   then Some(ChatRows(History(Ring()))) else None
    {
      if time - lastChatLineTime > CHAT_FADE_TIME {
        if chatHistorySize > 0 {
          FadeChat();
          chatDataUpdated := true;
        }
        lastChatLineTime := time;
      }
      rows := None;
      if chatDataUpdated {
        var shown := ChatRowsNow();
        rows := Some(shown);
        chatDataUpdated := false;
      }
    }

    /**
     * ClientUpdateVote(status, yesCount, noCount) at `time`: with a vote
     * in progress, the status' chat line is added; a client also drops the
     * vote on a failure, reset or abort and takes the server's counts.
     */
    method ClientUpdateVote(status: VoteResult, yesCount: int, noCount: int, time: int)
      requires Valid()
      modifies chatHistory, this`chatHistoryIndex, this`chatHistorySize, this`chatDataUpdated, this`lastChatLineTime,
               this`vote, this`yesVotes, this`noVotes
      ensures Valid() && vote == VoteAfterUpdate(old(vote), status, isClient)
      ensures old(vote) != VoteNone && ResultLine(status).Some? ==>
        Ring() == AddLine(old(Ring()), ResultLine(status).value) && chatDataUpdated && lastChatLineTime == time
      ensures !(old(vote) != VoteNone && ResultLine(status).Some?) ==>
        Ring() == old(Ring()) && chatDataUpdated == old(chatDataUpdated) && lastChatLineTime == old(lastChatLineTime)
      ensures yesVotes == (if old(vote) != VoteNone && isClient then yesCount else old(yesVotes))
      ensures noVotes == (if old(vote) != VoteNone && isClient then noCount else old(noVotes))
    {
      if vote == VoteNone {
        // clients coming in late do not get the vote start and may not vote
        return;
      }
      match status {
        case VoteFailed =>
          AddChatLine("#str_04278", time);
          if isClient {
            vote := VoteNone;
          }
        case VotePassed =>
          AddChatLine("#str_04277", time);
        case VoteReset =>
          if isClient {
            vote := VoteNone;
          }
        case VoteAborted =>
          AddChatLine("#str_04276", time);
          if isClient {
            vote := VoteNone;
          }
        case VoteUpdated =>
      }
      if isClient {
        yesVotes := yesCount;
        noVotes := noCount;
      }
    }

    /**
     * ServerStartVote: the caller votes yes, every other player present is
     * marked WAIT and everyone else NONE; the vote times out
     * VOTE_TIMEOUT ms from `time`.
     */
    method ServerStartVote(clientNum: int, kind: VoteKind, value: string, time: int)
      requires Valid() && vote == VoteNone
      modifies playerState, this`yesVotes, this`noVotes, this`vote, this`voteValue, this`voteTimeOut
      ensures Valid()
      ensures playerState[..] == StartMarks(ents, old(playerState[..]), clientNum)
      ensures yesVotes == 1 && noVotes == 0 && vote == kind && voteValue == value && voteTimeOut == time + VOTE_TIMEOUT
      ensures IsPlayer(ents, clientNum) ==> TallyAgrees(ents, playerState[..], yesVotes, noVotes)
    {
      yesVotes := 1;
      noVotes := 0;
      vote := kind;
      voteValue := value;
      voteTimeOut := time + VOTE_TIMEOUT;
      // only players in the game now may vote; those joining during the vote are ignored
      MarkVoters(clientNum);
      if IsPlayer(ents, clientNum) {
        StartVoteTallies(ents, old(playerState[..]), clientNum);
      }
    }

    /** ServerStartVote's loop: YES for the caller, WAIT for every other player, NONE elsewhere. */
    method MarkVoters(clientNum: int)
      requires Valid()
      modifies playerState
      ensures playerState[..] == StartMarks(ents, old(playerState[..]), clientNum)
    {
      ghost var ps0 := playerState[..];
      ghost var want := StartMarks(ents, ps0, clientNum);
      var i := 0;
      while i < |ents|
        invariant 0 <= i <= |ents|
        invariant forall k :: 0 <= k < i ==> playerState[k] == want[k]
        invariant forall k :: i <= k < MAX_CLIENTS ==> playerState[k] == ps0[k]
      {
        if ents[i].Some? {
          playerState[i] := playerState[i].(vote := if i == clientNum then PlayerVoteYes else PlayerVoteWait);
        } else {
          playerState[i] := playerState[i].(vote := PlayerVoteNone);
        }
        i := i + 1;
      }
      assert playerState[..] == want;
    }

    /**
     * ClientStartVote: the vote text is kept and its chat line added (`line`,
     * the localized text naming the caller); the local client counts as
     * voted when it called; a client shows a vote with one yes.
     */
    method ClientStartVote(clientNum: int, text: string, line: string, time: int)
      requires Valid()
      modifies chatHistory, this`chatHistoryIndex, this`chatHistorySize, this`chatDataUpdated, this`lastChatLineTime,
               this`voteString, this`voted, this`vote, this`yesVotes, this`noVotes
      ensures Valid() && voteString == text && Ring() == AddLine(old(Ring()), line)
      ensures voted == (clientNum == localClientNum)
      ensures isClient ==> vote == VoteRestart && yesVotes == 1 && noVotes == 0
      ensures !isClient ==> vote == old(vote) && yesVotes == old(yesVotes) && noVotes == old(noVotes)
    {
      voteString := text;
      AddChatLine(line, time);
      if clientNum == localClientNum {
        voted := true;
      } else {
        voted := false;
      }
      if isClient {
        // a vote value so that the vote line is displayed
        vote := VoteRestart;
        yesVotes := 1;
        noVotes := 0;
      }
    }

    /**
     * CastVote: the local client marks itself voted; a client only sends
     * the ballot. The server counts it when a vote is in progress and the
     * client was marked WAIT, which keeps the tallies equal to the marks.
     */
    method CastVote(clientNum: int, castYes: bool, time: int)
      requires Valid() && 0 <= clientNum < MAX_CLIENTS
      modifies playerState, chatHistory, this`chatHistoryIndex, this`chatHistorySize, this`chatDataUpdated,
               this`lastChatLineTime, this`vote, this`yesVotes, this`noVotes, this`voted
      ensures Valid() && voted == (clientNum == localClientNum || old(voted))
      ensures vote == old(vote) && Ring() == old(Ring())
      ensures isClient ==> playerState[..] == old(playerState[..]) && yesVotes == old(yesVotes) && noVotes == old(noVotes)
      ensures !isClient ==>
        var accepted := old(vote) != VoteNone && old(playerState[clientNum].vote) == PlayerVoteWait;
        && playerState[..] == (if accepted
             then old(playerState[..])[clientNum := old(playerState[clientNum]).(vote := if castYes then PlayerVoteYes else PlayerVoteNo)]
             else old(playerState[..]))
        && yesVotes == old(yesVotes) + (if accepted && castYes then 1 else 0)
        && noVotes == old(noVotes) + (if accepted && !castYes then 1 else 0)
      ensures !isClient && IsPlayer(ents, clientNum) && old(TallyAgrees(ents, playerState[..], yesVotes, noVotes)) ==>
        TallyAgrees(ents, playerState[..], yesVotes, noVotes)
    {
      if clientNum == localClientNum {
        voted := true;
      }
      if isClient {
        return;
      }
      if vote == VoteNone {
        // no vote in progress: the server tells the client so
        return;
      }
      if playerState[clientNum].vote != PlayerVoteWait {
        // voted already, or not allowed to vote
        return;
      }
      ghost var ps0 := playerState[..];
      ghost var yes0, no0 := yesVotes, noVotes;
      if castYes {
        playerState[clientNum] := playerState[clientNum].(vote := PlayerVoteYes);
        yesVotes := yesVotes + 1;
      } else {
        playerState[clientNum] := playerState[clientNum].(vote := PlayerVoteNo);
        noVotes := noVotes + 1;
      }
      if IsPlayer(ents, clientNum) && TallyAgrees(ents, ps0, yes0, no0) {
        CastKeepsTally(ents, ps0, yes0, no0, clientNum, castYes);
      }
      ClientUpdateVote(VoteUpdated, yesVotes, noVotes, time);
    }

    /** CheckVote's count: the players with a vote mark other than NONE. */
    method CountVotersNow() returns (numVoters: int)
      requires Valid()
      ensures numVoters == CountVoters(ents, playerState[..], |ents|)
    {
      numVoters := 0;
      var i := 0;
      while i < |ents|
        invariant 0 <= i <= |ents|
        invariant numVoters == CountVoters(ents, playerState[..], i)
      {
        if ents[i].Some? && playerState[i].vote != PlayerVoteNone {
          numVoters := numVoters + 1;
        }
        i := i + 1;
      }
    }

    /**
     * CheckVote at `time`, on the server: the step CheckVoteStep decides.
     * A passed vote announces itself and runs VOTE_EXEC_DELAY ms later; a
     * failed one announces itself and ends; an aborted one ends silently.
     */
    method CheckVote(time: int)
      requires Valid() && !isClient
      modifies chatHistory, this`chatHistoryIndex, this`chatHistorySize, this`chatDataUpdated, this`lastChatLineTime,
               this`vote, this`voteExecTime, this`yesVotes, this`noVotes
      ensures Valid() && yesVotes == old(yesVotes) && noVotes == old(noVotes)
      ensures Votes() == VoteAfter(old(Votes()), time, voteTimeOut, yesVotes, noVotes, CountVoters(ents, playerState[..], |ents|))
    {
      if vote == VoteNone {
        return;
      }
      if voteExecTime != 0 {
        ExecStep(time);
        return;
      }
      var numVoters := CountVotersNow();
      TallyStep(time, numVoters);
    }

    /** CheckVote once a passed vote waits: past the execution time it is reset and cleared. */
    method ExecStep(time: int)
      requires Valid() && !isClient && vote != VoteNone && voteExecTime != 0
      modifies chatHistory, this`chatHistoryIndex, this`chatHistorySize, this`chatDataUpdated, this`lastChatLineTime,
               this`vote, this`voteExecTime, this`yesVotes, this`noVotes
      ensures Valid() && yesVotes == old(yesVotes) && noVotes == old(noVotes) && Ring() == old(Ring())
      ensures time > old(voteExecTime) ==> vote == VoteNone && voteExecTime == 0
      ensures time <= old(voteExecTime) ==> vote == old(vote) && voteExecTime == old(voteExecTime)
    {
      if time > voteExecTime {
        voteExecTime := 0;
        ClientUpdateVote(VoteReset, 0, 0, time);
        // ExecuteVote is not part of this model
        vote := VoteNone;
      }
    }

    /** CheckVote's decision on an open vote with `numVoters` voters. */
    method TallyStep(time: int, numVoters: int)
      requires Valid() && !isClient && vote != VoteNone && voteExecTime == 0 && numVoters >= 0
      modifies chatHistory, this`chatHistoryIndex, this`chatHistorySize, this`chatDataUpdated, this`lastChatLineTime,
               this`vote, this`voteExecTime, this`yesVotes, this`noVotes
      ensures Valid() && yesVotes == old(yesVotes) && noVotes == old(noVotes)
      ensures var s := CheckVoteStep(old(vote), 0, time, voteTimeOut, yesVotes, noVotes, numVoters);
        && vote == (if s == Abort || s == Fail then VoteNone else old(vote))
        && voteExecTime == (if s == Pass then time + VOTE_EXEC_DELAY else 0)
        && Ring() == (if s == Pass then AddLine(old(Ring()), "#str_04277")
                      else if s == Fail then AddLine(old(Ring()), "#str_04278") else old(Ring()))
    {
      if numVoters == 0 {
        // abort
        vote := VoteNone;
        ClientUpdateVote(VoteAborted, yesVotes, noVotes, time);
        return;
      }
      if 2 * yesVotes > numVoters {
        ClientUpdateVote(VotePassed, yesVotes, noVotes, time);
        voteExecTime := time + VOTE_EXEC_DELAY;
        return;
      }
      if time > voteTimeOut || 2 * noVotes >= numVoters {
        ClientUpdateVote(VoteFailed, yesVotes, noVotes, time);
        vote := VoteNone;
        return;
      }
    }

    /**
     * WriteToSnapshot: the phase byte, both seats as signed shorts, then
     * every client's clamped frags, team frags, wins, ping and ingame bit.
     */
    method WriteToSnapshot() returns (msg: seq<bool>)
      requires Valid()
      ensures msg == EncodeSnapshot(gameState, TourneySeats(), playerState[..])
    {
      ghost var ps := playerState[..];
      var header := WriteBits(GameStateIndex(gameState), 8)
                    + WriteBits(currentTourneyPlayer[0], -16) + WriteBits(currentTourneyPlayer[1], -16);
      var body := [];
      for i := 0 to MAX_CLIENTS
        invariant body == EncodeClients(ps[..i])
      {
        var rec := WriteClient(playerState[i]);
        EncodeClientsStep(ps, i);
        body := body + rec;
      }
      assert ps[..MAX_CLIENTS] == ps;
      msg := header + body;
    }

    /** One client's record in WriteToSnapshot: each value clamped to what its field can carry. */
    static method WriteClient(st: PlayerState) returns (rec: seq<bool>)
      ensures rec == EncodeClient(st)
    {
      var frags := ClampInt(MP_PLAYER_MINFRAGS, MP_PLAYER_MAXFRAGS, st.fragCount);
      var teamFrags := ClampInt(MP_PLAYER_MINFRAGS, MP_PLAYER_MAXFRAGS, st.teamFragCount);
      var wins := ClampInt(0, MP_PLAYER_MAXWINS, st.wins);
      var ping := ClampInt(0, MP_PLAYER_MAXPING, st.ping);
      rec := WriteBits(frags, FRAG_BITS) + WriteBits(teamFrags, FRAG_BITS) + WriteBits(wins, WINS_BITS)
             + WriteBits(ping, PING_BITS) + WriteBits(if st.ingame then 1 else 0, 1);
    }

    /**
     * ReadFromSnapshot at `time`, with si_fragLimit as `fragLimit`: a
     * change of phase is taken over (entering GameOn starts the match clock
     * and records the frag limit), then the seats and every client's five
     * values. A message too short to hold a snapshot is dropped.
     */
    method ReadFromSnapshot(msg: seq<bool>, time: int, fragLimit: int)
      requires Valid()
      modifies this`gameState, this`matchStartedTime, this`startFragLimit, currentTourneyPlayer, playerState
      ensures Valid()
      ensures DecodeSnapshot(msg).None? ==>
        && gameState == old(gameState) && TourneySeats() == old(TourneySeats()) && playerState[..] == old(playerState[..])
        && matchStartedTime == old(matchStartedTime) && startFragLimit == old(startFragLimit)
      ensures DecodeSnapshot(msg).Some? ==>
        var d := DecodeSnapshot(msg).value;
        var ns := GameStateOf(d.gameState);
        && gameState == (if ns.Some? then ns.value else old(gameState))
        && (gameState != old(gameState) && gameState == GameOn ==> matchStartedTime == time && startFragLimit == fragLimit)
        && (!(gameState != old(gameState) && gameState == GameOn) ==>
              matchStartedTime == old(matchStartedTime) && startFragLimit == old(startFragLimit))
        && TourneySeats() == d.seats
        && playerState[..] == seq(MAX_CLIENTS, i requires 0 <= i < MAX_CLIENTS => Applied(old(playerState[i]), d.clients[i]))
    {
      if |msg| < SNAPSHOT_BITS {
        return;
      }
      var newState := GameStateOf(ValueOf(msg[0..8], 8));
      if newState.Some? && newState.value != gameState {
        gameState := newState.value;
        // the ready and team switch cvars are left out
        if gameState == GameOn {
          matchStartedTime := time;
          startFragLimit := fragLimit;
        }
      }
      currentTourneyPlayer[0] := ValueOf(msg[8..24], -16);
      currentTourneyPlayer[1] := ValueOf(msg[24..40], -16);
      ReadClients(msg);
    }

    /** One client's record, read field by field in the order WriteToSnapshot wrote them. */
    static method ReadClient(rec: seq<bool>) returns (f: ClientFields)
      requires |rec| == CLIENT_BITS
      ensures f == FieldsOf(rec)
    {
      var frags := ValueOf(rec[0..8], FRAG_BITS);
      var teamFrags := ValueOf(rec[8..16], FRAG_BITS);
      var wins := ValueOf(rec[16..23], WINS_BITS);
      var ping := ValueOf(rec[23..33], PING_BITS);
      var ingame := ValueOf(rec[33..34], 1) != 0;
      f := ClientFields(frags, teamFrags, wins, ping, ingame);
    }

    /** ReadFromSnapshot's loop: every client's five values, read in the order they were written. */
    method ReadClients(msg: seq<bool>)
      requires Valid() && |msg| >= SNAPSHOT_BITS
      modifies playerState
      ensures playerState[..] == seq(MAX_CLIENTS, i requires 0 <= i < MAX_CLIENTS =>
                                       Applied(old(playerState[i]), FieldsOf(ClientSlice(msg, i))))
    {
      ghost var ps0 := playerState[..];
      for i := 0 to MAX_CLIENTS
        invariant forall k :: 0 <= k < i ==> playerState[k] == Applied(ps0[k], FieldsOf(ClientSlice(msg, k)))
        invariant forall k :: i <= k < MAX_CLIENTS ==> playerState[k] == ps0[k]
      {
        ReadInto(msg, i);
      }
    }

    /** One iteration of ReadFromSnapshot's loop: client `i`'s five values, stored in its score table entry. */
    method ReadInto(msg: seq<bool>, i: int)
      requires Valid() && |msg| >= SNAPSHOT_BITS && 0 <= i < MAX_CLIENTS
      modifies playerState
      ensures playerState[..] == old(playerState[..])[i := Applied(old(playerState[i]), FieldsOf(ClientSlice(msg, i)))]
    {
      var f := ReadClient(ClientSlice(msg, i));
      playerState[i] := Applied(playerState[i], f);
    }

    /**
     * SuddenRespawn: an end delay in last man standing was cancelled, so
     * every player who can play and is not out may come back in once.
     */
    method SuddenRespawn()
      requires Valid()
      modifies this`ents
      ensures Valid() && ents == PlayAgainEnts(gameType, old(ents), playerState[..])
    {
      ghost var want := PlayAgainEnts(gameType, ents, playerState[..]);
      if gameType != GameLastMan {
        assert ents == want;
        return;
      }
      var e := ents;
      var i := 0;
      while i < |e|
        invariant 0 <= i <= |e| == |want| && ents == old(ents)
        invariant forall k :: 0 <= k < i ==> e[k] == want[k]
        invariant forall k :: i <= k < |e| ==> e[k] == old(ents)[k]
      {
        if e[i].Some? && MpTypes.CanPlay(e[i].value, playerState[i]) && !e[i].value.lastManOver {
          e := e[i := Some(e[i].value.(lastManPlayAgain := true))];
        }
        i := i + 1;
      }
      assert e == want;
      ents := e;
    }

    /** EnterGame on the server: the client is in the game from now on (the join announcement is left out). */
    method EnterGame(clientNum: int)
      requires Valid() && !isClient && 0 <= clientNum < MAX_CLIENTS
      modifies playerState
      ensures Valid()
      ensures playerState[..] == old(playerState[..])[clientNum := old(playerState[clientNum]).(ingame := true)]
      ensures IsPlayer(ents, clientNum) ==>
        (MpTypes.CanPlay(ents[clientNum].value, playerState[clientNum]) <==> !ents[clientNum].value.wantSpectate)
    {
      if !playerState[clientNum].ingame {
        playerState[clientNum] := playerState[clientNum].(ingame := true);
      }
    }

    /** Run's ping refresh: every client's ping as the network reports it in `pings`. */
    method UpdatePings(pings: seq<int>)
      requires Valid() && |ents| <= |pings|
      modifies playerState
      ensures Valid()
      ensures forall i :: 0 <= i < MAX_CLIENTS ==>
                playerState[i] == if i < |ents| then old(playerState[i]).(ping := pings[i]) else old(playerState[i])
    {
      ghost var ps0 := playerState[..];
      var i := 0;
      while i < |ents|
        invariant 0 <= i <= |ents|
        invariant forall k :: 0 <= k < i ==> playerState[k] == ps0[k].(ping := pings[k])
        invariant forall k :: i <= k < MAX_CLIENTS ==> playerState[k] == ps0[k]
      {
        playerState[i] := playerState[i].(ping := pings[i]);
        i := i + 1;
      }
    }

    /**
     * The end delay of a frag limit or sudden death leader `winner`: it
     * starts FRAGLIMIT_DELAY ms from `time` unless already running, and once
     * it has passed the match goes to GameReview with `winner` credited.
     */
    method EndAfterDelay(winner: int, time: int, settings: Settings)
      requires Valid() && !isClient && PhasesValid() && (gameState == GameOn || gameState == SuddenDeath) && IsPlayer(ents, winner)
      modifies this`ents, playerState, this`gameState, this`nextState, this`lastWinner, this`matchStartedTime,
               this`fragLimitTimeout, this`startFragLimit, this`warmupEndTime, this`phaseLog
      ensures Valid() && PhasesValid() && old(phaseLog) <= phaseLog
      ensures Snap() == EndDelay(gameType, old(Snap()), winner, time, settings)
    {
      // the delay lets the death animations play
      if fragLimitTimeout == 0 {
        fragLimitTimeout := time + FRAGLIMIT_DELAY;
      }
      if time > fragLimitTimeout {
        ExtendHistory(phaseLog, GameReview);
        NewState(GameReview, winner, time, settings);
      }
    }

    /**
     * The frag limit was hit and lost again during the end delay (the teams
     * got even): the delay is cancelled, the last man standing players come
     * back in, and sudden death starts; the next frag leader wins.
     */
    method StartSuddenDeath(time: int, settings: Settings)
      requires Valid() && !isClient && PhasesValid() && gameState == GameOn
      modifies this`ents, playerState, this`gameState, this`nextState, this`lastWinner, this`matchStartedTime,
               this`fragLimitTimeout, this`startFragLimit, this`warmupEndTime, this`phaseLog
      ensures Valid() && PhasesValid() && old(phaseLog) <= phaseLog
      ensures Snap() == Entered(gameType, PlayAgain(gameType, old(Snap())), SuddenDeath, -1, time, settings)
    {
      SuddenRespawn();
      fragLimitTimeout := 0;
      ExtendHistory(phaseLog, SuddenDeath);
      NewState(SuddenDeath, -1, time, settings);
    }

    /** The time limit is up in GAMEON: the frag leader wins, or sudden death starts on a tie. */
    method TimeUp(time: int, settings: Settings)
      requires Valid() && !isClient && PhasesValid() && gameState == GameOn
      modifies this`ents, playerState, this`gameState, this`nextState, this`lastWinner, this`matchStartedTime,
               this`fragLimitTimeout, this`startFragLimit, this`warmupEndTime, this`phaseLog
      ensures Valid() && PhasesValid() && old(phaseLog) <= phaseLog
      ensures Snap() == TimeUpAfter(gameType, old(Snap()), time, settings)
    {
      var leader := FragLeader();
      if leader == -1 {
        ExtendHistory(phaseLog, SuddenDeath);
        NewState(SuddenDeath, -1, time, settings);
      } else {
        assert IsPlayer(ents, leader);
        ExtendHistory(phaseLog, GameReview);
        NewState(GameReview, leader, time, settings);
      }
    }

    /**
     * Run in GAMEON, as GameOnAfter says; a phase change it makes is an
     * allowed one.
     */
    method GameOnTick(time: int, settings: Settings)
      requires Valid() && !isClient && PhasesValid() && gameState == GameOn
      modifies this`ents, playerState, this`gameState, this`nextState, this`lastWinner, this`matchStartedTime,
               this`fragLimitTimeout, this`startFragLimit, this`warmupEndTime, this`phaseLog
      ensures Valid() && PhasesValid() && old(phaseLog) <= phaseLog
      ensures Snap() == GameOnAfter(gameType, old(Snap()), time, settings)
    {
      ghost var v := View();
      var winner := FragLimitHit(settings.fragLimit);
      assert Snap() == Marked(gameType, old(Snap()));
      if winner != -1 {
        FragLimitWinnerMeans(v, settings.fragLimit);
        assert IsPlayer(ents, winner);
        EndAfterDelay(winner, time, settings);
      } else if fragLimitTimeout != 0 {
        StartSuddenDeath(time, settings);
      } else {
        var hit := TimeLimitHit(settings.timeLimit, time);
        if hit {
          TimeUp(time, settings);
        }
      }
    }

    /**
     * Run in SUDDENDEATH, as SuddenDeathAfter says; a phase change it makes
     * is an allowed one.
     */
    method SuddenDeathTick(time: int, settings: Settings)
      requires Valid() && !isClient && PhasesValid() && gameState == SuddenDeath
      modifies this`ents, playerState, this`gameState, this`nextState, this`lastWinner, this`matchStartedTime,
               this`fragLimitTimeout, this`startFragLimit, this`warmupEndTime, this`phaseLog
      ensures Valid() && PhasesValid() && old(phaseLog) <= phaseLog
      ensures Snap() == SuddenDeathAfter(gameType, old(Snap()), time, settings)
    {
      var leader := FragLeader();
      assert Snap() == Marked(gameType, old(Snap()));
      if leader != -1 {
        assert IsPlayer(ents, leader);
        EndAfterDelay(leader, time, settings);
      } else if fragLimitTimeout != 0 {
        SuddenRespawn();
        fragLimitTimeout := 0;
      }
    }

    /**
     * Run in WARMUP, as WarmupAfter says: once every player is ready
     * (AllPlayersReady with si_warmup), the countdown starts and GAMEON is
     * scheduled for when it ends, g_countDown seconds from `time`.
     */
    method WarmupTick(time: int, settings: Settings)
      requires Valid() && !isClient && PhasesValid() && gameState == Warmup
      modifies this`ents, playerState, this`gameState, this`nextState, this`lastWinner, this`matchStartedTime,
               this`fragLimitTimeout, this`startFragLimit, this`warmupEndTime, this`phaseLog, this`nextStateSwitch
      ensures Valid() && PhasesValid() && old(phaseLog) <= phaseLog
      ensures Snap() == WarmupAfter(gameType, old(Snap()), time, settings)
    {
      var ready := AllPlayersReady(settings.warmup);
      if ready {
        ExtendHistory(phaseLog, Countdown);
        NewState(Countdown, -1, time, settings);
        nextState := GameOn;
        nextStateSwitch := time + 1000 * settings.countDown;
      }
    }

    /**
     * Run in NEXTGAME with nothing scheduled and no map change, as
     * NextGameAfter says: back to WARMUP, a tourney cycles its seats, and
     * every player who does not want to spectate is put back in from the
     * end of match spectating.
     */
    method NextGameTick(time: int, settings: Settings)
      requires Valid() && !isClient && gameState == NextGame && PhasesValid()
      modifies this`ents, playerState, this`gameState, this`nextState, this`lastWinner, this`matchStartedTime,
               this`fragLimitTimeout, this`startFragLimit, this`warmupEndTime, this`phaseLog, currentTourneyPlayer
      ensures Valid() && PhasesValid() && old(phaseLog) <= phaseLog
      ensures Snap() == NextGameAfter(gameType, old(Snap()), time, settings)
    {
      ExtendHistory(phaseLog, Warmup);
      NewState(Warmup, -1, time, settings);
      if gameType == GameTourney {
        var _ := CycleTourneyPlayers();
      }
      PutBackPlayers();
    }

    /** NEXTGAME's loop: every player who does not want to spectate is checked for respawn, as PutBack says. */
    method PutBackPlayers()
      requires Valid() && !isClient && PhasesValid()
      modifies this`ents, this`gameState, this`nextState, this`lastWinner, playerState, currentTourneyPlayer, this`phaseLog
      ensures Valid() && PhasesValid() && old(phaseLog) <= phaseLog
      ensures Snap() == PutBack(gameType, old(Snap()), 0)
    {
      var i := 0;
      while i < |ents|
        invariant Valid() && PhasesValid() && 0 <= i <= |ents|
        invariant old(phaseLog) <= phaseLog
        invariant PutBack(gameType, Snap(), i) == PutBack(gameType, old(Snap()), 0)
      {
        if ents[i].Some? && !ents[i].value.wantSpectate {
          CheckRespawns(i);
        }
        i := i + 1;
      }
    }

    /** Run's scheduled change, as SwitchAfter says: once its time has passed, the scheduled phase is entered. */
    method SwitchScheduled(time: int, settings: Settings)
      requires Valid() && !isClient && PhasesValid()
      modifies this`ents, playerState, this`gameState, this`nextState, this`lastWinner, this`matchStartedTime,
               this`fragLimitTimeout, this`startFragLimit, this`warmupEndTime, this`phaseLog
      ensures Valid() && PhasesValid() && old(phaseLog) <= phaseLog
      ensures Snap() == SwitchAfter(gameType, old(Snap()), time, settings)
    {
      if nextState != Inactive && time > nextStateSwitch {
        ScheduledAllowed(gameState, nextState);
        ExtendHistory(phaseLog, nextState);
        NewState(nextState, -1, time, settings);
        nextState := Inactive;
      }
    }

    /**
     * The per-phase part of Run, as PhaseAfter says: GAMEREVIEW schedules
     * NEXTGAME after g_gameReviewPause seconds; NEXTGAME either leaves for
     * the next map or goes back to WARMUP; the others run their tick.
     */
    method RunPhase(time: int, settings: Settings, nextMap: bool)
      requires Valid() && !isClient && PhasesValid()
      modifies this`ents, playerState, this`gameState, this`nextState, this`lastWinner, this`matchStartedTime,
               this`fragLimitTimeout, this`startFragLimit, this`warmupEndTime, this`phaseLog, currentTourneyPlayer, this`nextStateSwitch
      ensures Valid() && PhasesValid() && old(phaseLog) <= phaseLog
      ensures Snap() == PhaseAfter(gameType, old(Snap()), time, settings, nextMap)
    {
      if gameState == GameReview {
        if nextState == Inactive {
          nextState := NextGame;
          nextStateSwitch := time + 1000 * settings.gameReviewPause;
        }
      } else if gameState == NextGame {
        // with a map rotation the server restarts on the new map instead
        if nextState == Inactive && !nextMap {
          NextGameTick(time, settings);
        }
      } else if gameState == Warmup {
        WarmupTick(time, settings);
      } else if gameState == GameOn {
        GameOnTick(time, settings);
      } else if gameState == SuddenDeath {
        SuddenDeathTick(time, settings);
      }
    }

    /** The first frame of a server's match goes from INACTIVE to WARMUP, as LeaveAfter says. */
    method LeaveInactive(time: int, settings: Settings)
      requires Valid() && !isClient && PhasesValid()
      modifies this`ents, playerState, this`gameState, this`nextState, this`lastWinner, this`matchStartedTime,
               this`fragLimitTimeout, this`startFragLimit, this`warmupEndTime, this`phaseLog
      ensures Valid() && PhasesValid() && old(phaseLog) <= phaseLog
      ensures Snap() == LeaveAfter(gameType, old(Snap()), time, settings)
    {
      if gameState == Inactive {
        ExtendHistory(phaseLog, Warmup);
        NewState(Warmup, -1, time, settings);
      }
    }

    /**
     * The start of Run: the first frame leaves INACTIVE, then the vote is
     * checked with the clients as they stand, then the respawns.
     */
    method RunStart(time: int, settings: Settings)
      requires Valid() && !isClient && PhasesValid()
      modifies currentTourneyPlayer, this`ents, playerState, this`gameState, this`nextState, this`lastWinner, this`matchStartedTime,
               this`fragLimitTimeout, this`startFragLimit, this`warmupEndTime, this`phaseLog, this`nextStateSwitch,
               chatHistory, this`chatHistoryIndex, this`chatHistorySize, this`chatDataUpdated, this`lastChatLineTime,
               this`vote, this`voteExecTime, this`yesVotes, this`noVotes
      ensures Valid() && PhasesValid() && old(phaseLog) <= phaseLog
      ensures Snap() == StartAfter(gameType, old(Snap()), time, settings)
      ensures yesVotes == old(yesVotes) && noVotes == old(noVotes)
      ensures Votes() == VoteAfter(old(Votes()), time, voteTimeOut, yesVotes, noVotes, CountVoters(old(ents), old(playerState[..]), |old(ents)|))
    {
      LeaveInactive(time, settings);
      assert ents == old(ents) && playerState[..] == old(playerState[..]);
      VoteThenRespawns(time);
    }

    /** RunStart after INACTIVE is left: CheckVote with the clients as they stand, then every client's respawn. */
    method VoteThenRespawns(time: int)
      requires Valid() && !isClient && PhasesValid()
      modifies currentTourneyPlayer, this`ents, playerState, this`gameState, this`nextState, this`lastWinner, this`phaseLog,
               chatHistory, this`chatHistoryIndex, this`chatHistorySize, this`chatDataUpdated, this`lastChatLineTime,
               this`vote, this`voteExecTime, this`yesVotes, this`noVotes
      ensures Valid() && PhasesValid() && old(phaseLog) <= phaseLog
      ensures Snap() == Respawned(gameType, old(Snap()), -1)
      ensures yesVotes == old(yesVotes) && noVotes == old(noVotes)
      ensures Votes() == VoteAfter(old(Votes()), time, voteTimeOut, yesVotes, noVotes, CountVoters(old(ents), old(playerState[..]), |old(ents)|))
    {
      ghost var m := Snap();
      CheckVote(time);
      assert Snap() == m;
      ghost var v := Votes();
      CheckRespawns(-1);
      assert Votes() == v;
    }

    /** Run's ping refresh: not every frame, to save bandwidth, but once `time` is past pingUpdateTime. */
    method RefreshPings(time: int, pings: seq<int>)
      requires Valid() && |pings| == MAX_CLIENTS
      modifies playerState, this`pingUpdateTime
      ensures Valid()
      ensures Snap() == if time > old(pingUpdateTime) then Pinged(old(Snap()), pings) else old(Snap())
      ensures pingUpdateTime == if time > old(pingUpdateTime) then time + 1000 else old(pingUpdateTime)
    {
      if time > pingUpdateTime {
        UpdatePings(pings);
        pingUpdateTime := time + 1000;
        assert playerState[..] == Pinged(old(Snap()), pings).ps;
      }
    }

    /** Run after its start: the scheduled change, the ping refresh and the per-phase part. */
    method RunRest(time: int, settings: Settings, pings: seq<int>, nextMap: bool)
      requires Valid() && !isClient && PhasesValid() && |pings| == MAX_CLIENTS
      modifies this`ents, playerState, this`gameState, this`nextState, this`lastWinner, this`matchStartedTime,
               this`fragLimitTimeout, this`startFragLimit, this`warmupEndTime, this`phaseLog, currentTourneyPlayer, this`nextStateSwitch, this`pingUpdateTime
      ensures Valid() && PhasesValid() && old(phaseLog) <= phaseLog
      ensures var m := SwitchAfter(gameType, old(Snap()), time, settings);
        Snap() == PhaseAfter(gameType, if time > old(pingUpdateTime) then Pinged(m, pings) else m, time, settings, nextMap)
      ensures pingUpdateTime == if time > old(pingUpdateTime) then time + 1000 else old(pingUpdateTime)
    {
      SwitchScheduled(time, settings);
      RefreshPings(time, pings);
      RunPhase(time, settings, nextMap);
    }

    /**
     * Run on the server at `time`, with the server settings, the clients'
     * pings and whether the map rotation moves to a new map: the match
     * becomes what RunAfter says, the ping refresh falls due every second,
     * and the vote is checked. Each phase change it makes, directly or
     * through CheckRespawns, is an allowed one, and the scheduled change
     * stays one Run may make.
     */
    method Run(time: int, settings: Settings, pings: seq<int>, nextMap: bool)
      requires Valid() && !isClient && PhasesValid() && |pings| == MAX_CLIENTS
      modifies this`ents, playerState, this`gameState, this`nextState, this`lastWinner, this`matchStartedTime,
               this`fragLimitTimeout, this`startFragLimit, this`warmupEndTime, this`phaseLog, currentTourneyPlayer, this`nextStateSwitch, this`pingUpdateTime,
               chatHistory, this`chatHistoryIndex, this`chatHistorySize, this`chatDataUpdated, this`lastChatLineTime,
               this`vote, this`voteExecTime, this`yesVotes, this`noVotes
      ensures Valid() && PhasesValid() && old(phaseLog) <= phaseLog
      ensures Snap() == RunAfter(gameType, old(Snap()), time, settings, pings, time > old(pingUpdateTime), nextMap)
      ensures pingUpdateTime == if time > old(pingUpdateTime) then time + 1000 else old(pingUpdateTime)
      ensures yesVotes == old(yesVotes) && noVotes == old(noVotes)
      ensures Votes() == VoteAfter(old(Votes()), time, voteTimeOut, yesVotes, noVotes, CountVoters(old(ents), old(playerState[..]), |old(ents)|))
    {
      ghost var due := time > pingUpdateTime;
      RunStart(time, settings);
      ghost var m := Snap();
      assert m == StartAfter(gameType, old(Snap()), time, settings);
      RunRest(time, settings, pings, nextMap);
      assert Snap() == RunAfter(gameType, old(Snap()), time, settings, pings, due, nextMap);
    }
  }
}
