/**
 * CheckRespawns and CheckAbortGame as functions on the part of the match
 * they change: the phase, the scheduled phase, the last winner, the
 * players, the score table and the tourney seats.
 */
module MpRespawn {
  import opened Wrappers
  import opened MpTypes
  import opened MpCount
  import opened MpTourney
  import opened MpPhase

  datatype Respawn = Respawn(
    gs: GameState,
    nextState: GameState,
    lastWinner: int,
    ents: Entities,
    ps: seq<PlayerState>,
    seats: Seats)

  ghost predicate RespawnValid(s: Respawn) {
    EntitiesValid(s.ents) && |s.ents| <= |s.ps|
  }

  /** The seat holds no player in the game: empty, not a player, or spectating. */
  predicate SeatGone(ents: Entities, seat: int) {
    !IsPlayer(ents, seat) || ents[seat].value.spectating
  }

  /** NewState(GAMEREVIEW) with no winner: nothing scheduled, everyone spectates, no last winner. */
  function ToReview(s: Respawn): Respawn {
    s.(gs := GameReview, nextState := Inactive, lastWinner := -1, ents := ReviewEnts(s.ents))
  }

  /** A running match: the phases CheckAbortGame may end. */
  predicate Running(gs: GameState) {
    gs == Countdown || gs == GameOn || gs == SuddenDeath
  }

  /**
   * CheckAbortGame, with an empty seat (-1) read as an empty entity: in a
   * tourney warmup a seat whose player left or spectates is freed; a running
   * match goes to GameReview when a tourney seat is gone, or otherwise when
   * there are not enough players.
   */
  function AbortChecked(gt: GameType, s: Respawn): (r: Respawn)
    requires |s.ents| <= |s.ps|
  {
    var seats: Seats :=
      if gt == GameTourney && s.gs == Warmup then
        [if SeatGone(s.ents, s.seats[0]) then -1 else s.seats[0],
         if SeatGone(s.ents, s.seats[1]) then -1 else s.seats[1]]
      else s.seats;
    var t := s.(seats := seats);
    if !Running(s.gs) then t
    else if gt == GameTourney then
      (if SeatGone(s.ents, seats[0]) || SeatGone(s.ents, seats[1]) then ToReview(t) else t)
    else if !EnoughToPlay(gt, s.ents, s.ps) then ToReview(t)
    else t
  }

  /**
   * gameLocal.entities[k] as CheckAbortGame reads it, with no bounds check:
   * None for a negative index, which lies outside the array; the slot
   * otherwise (no player beyond the clients).
   */
  function EntityRead(ents: Entities, k: int): (r: Option<Option<Player>>)
    ensures r.None? <==> k < 0
    ensures r.Some? ==> (r.value.Some? <==> IsPlayer(ents, k))
  {
    if k < 0 then None
    else if k < |ents| then Some(ents[k])
    else Some(None)
  }

  /** The seat test of CheckAbortGame as written: null or spectating; None when the seat is -1. */
  function GoneAsWritten(ents: Entities, seat: int): (r: Option<bool>)
    ensures r.None? <==> seat < 0
    ensures r.Some? ==> (r.value <==> SeatGone(ents, seat))
  {
    match EntityRead(ents, seat)
    case None => None
    case Some(e) => Some(e.None? || e.value.spectating)
  }

  /**
   * CheckAbortGame as written: both seat loops index the entities with the
   * seat number, so an empty seat (-1) is read at index -1. None stands for
   * that out-of-range read; otherwise the result of the check.
   */
  function AbortAsWritten(gt: GameType, s: Respawn): Option<Respawn>
    requires |s.ents| <= |s.ps|
  {
    var warmupCheck := gt == GameTourney && s.gs == Warmup;
    var g0 := if warmupCheck then GoneAsWritten(s.ents, s.seats[0]) else Some(false);
    var g1 := if warmupCheck then GoneAsWritten(s.ents, s.seats[1]) else Some(false);
    if g0.None? || g1.None? then None
    else
      var seats: Seats := [if g0.value then -1 else s.seats[0], if g1.value then -1 else s.seats[1]];
      var t := s.(seats := seats);
      if !Running(s.gs) then Some(t)
      else if gt == GameTourney then
        match GoneAsWritten(s.ents, seats[0])
        case None => None
        case Some(true) => Some(ToReview(t))
        case Some(false) =>
          match GoneAsWritten(s.ents, seats[1])
          case None => None
          case Some(gone) => Some(if gone then ToReview(t) else t)
      else Some(if !EnoughToPlay(gt, s.ents, s.ps) then ToReview(t) else t)
  }

  /**
   * Where the code as written reads no empty seat it does what AbortChecked
   * does, and it reads none when both seats are held.
   */
  lemma AbortAsWrittenAgrees(gt: GameType, s: Respawn)
    requires |s.ents| <= |s.ps|
    ensures AbortAsWritten(gt, s).Some? ==> AbortAsWritten(gt, s).value == AbortChecked(gt, s)
    ensures s.seats[0] >= 0 && s.seats[1] >= 0 ==> AbortAsWritten(gt, s).Some?
  {
  }

  /**
   * The out-of-range read happens: in a tourney warmup with one client who
   * wants to play, FillTourneySlots seats that client and leaves the other
   * seat at -1 ("may be -1 if we found nothing"), and CheckAbortGame then
   * reads gameLocal.entities[-1].
   */
  lemma EmptySeatRead(p: Player, ps: PlayerState)
    requires !p.wantSpectate && !p.spectating
    ensures var ents := [Some(p)];
      var seats := FillSlots(ents, [-1, -1]);
      && seats == [0, -1]
      && AbortAsWritten(GameTourney, Respawn(Warmup, Inactive, -1, ents, [ps], seats)).None?
  {
    var ents := [Some(p)];
    assert BestWaiting(ents, [-1, -1], 1) == 0;
    assert BestWaiting(ents, [0, -1], 1) == -1;
  }

  /**
   * CheckAbortGame with the seat read guarded (AbortChecked): in a tourney
   * warmup every seat left is held by a player in the game; a running
   * tourney that is not sent to GameReview has both seats held; a running
   * match of another type that goes on has enough players.
   */
  lemma AbortFreesSeats(gt: GameType, s: Respawn)
    requires |s.ents| <= |s.ps|
    ensures var r := AbortChecked(gt, s);
      && (gt == GameTourney && s.gs == Warmup ==>
            r.gs == Warmup && forall k :: 0 <= k < 2 ==> r.seats[k] == -1 || !SeatGone(r.ents, r.seats[k]))
      && (Running(s.gs) && r.gs != GameReview ==>
            r.gs == s.gs && (if gt == GameTourney then !SeatGone(r.ents, r.seats[0]) && !SeatGone(r.ents, r.seats[1])
                             else EnoughToPlay(gt, r.ents, r.ps)))
      && (Running(s.gs) && r.gs == GameReview ==> r == ToReview(s.(seats := r.seats)))
  {
  }

  /** ServerSpectate(on) on player `i`. */
  function SetSpectate(s: Respawn, i: int, on: bool): (r: Respawn)
    requires IsPlayer(s.ents, i)
    ensures |r.ents| == |s.ents|
  {
    s.(ents := s.ents[i := Some(Spectate(s.ents[i].value, on))])
  }

  /** No player among clients 0 .. n-1 can play and still has lives. */
  predicate NoneLeft(ents: Entities, ps: seq<PlayerState>, n: nat)
    requires n <= |ents|
  {
    n == 0 || (NoneLeft(ents, ps, n - 1) && !(Plays(ents, ps, n - 1) && !ents[n - 1].value.lastManOver))
  }

  /** A phase in which a deathmatch player may come back in. */
  predicate Joinable(gs: GameState) {
    gs == Warmup || gs == Countdown || gs == GameOn
  }

  /** The last-man branch of CheckRespawns for a player who wants back in. */
  function LastManStep(fragLimitTimeout: int, s: Respawn, i: int): (r: Respawn)
    requires IsPlayer(s.ents, i) && i < |s.ps| && |s.ents| <= |s.ps|
    ensures |r.ents| == |s.ents| && |r.ps| == |s.ps|
  {
    var p := s.ents[i].value;
    if s.gs == Warmup || s.gs == Countdown then SetSpectate(s, i, false)
    else if s.gs == GameOn || s.gs == SuddenDeath then
      if s.gs == GameOn && s.ps[i].fragCount > 0 && p.lastManPresent then SetSpectate(s, i, false)
      else if p.lastManPlayAgain && p.lastManPresent then SetSpectate(s, i, false)
      else if fragLimitTimeout == 0 && !p.lastManOver then OutOfLives(s, i)
      else s
    else s
  }

  /**
   * A last-man player out of lives: marked out, scored LASTMAN_NOLIVES and
   * sent to spectate, unless nobody with lives is left.
   */
  function OutOfLives(s: Respawn, i: int): (r: Respawn)
    requires IsPlayer(s.ents, i) && i < |s.ps| && |s.ents| <= |s.ps|
    ensures |r.ents| == |s.ents| && |r.ps| == |s.ps|
  {
    var out := s.(ents := s.ents[i := Some(Spectate(s.ents[i].value.(lastManOver := true), true))],
                  ps := s.ps[i := s.ps[i].(fragCount := LASTMAN_NOLIVES)]);
    if NoneLeft(out.ents, out.ps, |out.ents|) then SetSpectate(out, i, false) else out
  }

  /** What one iteration of CheckRespawns does for client `i`; `spectator` is the forced client or -1. */
  function RespawnStep(gt: GameType, fragLimitTimeout: int, s: Respawn, i: int, spectator: int): (r: Respawn)
    requires 0 <= i < |s.ents| && |s.ents| <= |s.ps|
    ensures |r.ents| == |s.ents| && |r.ps| == |s.ps|
  {
    if s.ents[i].None? then s
    else
      var p := s.ents[i].value;
      if WantRespawn(p, s.ps[i]) || i == spectator then
        if s.gs == SuddenDeath && gt != GameLastMan then
          if fragLimitTimeout != 0 then s
          else if gt == GameTDM || p.isLeader then SetSpectate(s, i, false)
          else AbortChecked(gt, SetSpectate(s, i, true))
        else if gt == GameDM || gt == GameTDM then
          if Joinable(s.gs) then SetSpectate(s, i, false) else s
        else if gt == GameTourney then
          if Seated(s.seats, i) then
            if Joinable(s.gs) then SetSpectate(s, i, false) else s
          else if s.gs == Warmup then
            var t := s.(seats := FillSlots(s.ents, s.seats));
            if Seated(t.seats, i) then SetSpectate(t, i, false) else t
          else s
        else if gt == GameLastMan then LastManStep(fragLimitTimeout, s, i)
        else s
      else if p.wantSpectate && !p.spectating then
        AbortChecked(gt, SetSpectate(s.(ps := s.ps[i := s.ps[i].(fragCount := 0)]), i, true))
      else s
  }

  /** The state after the iterations for clients 0 .. n-1. */
  function RespawnsUpTo(gt: GameType, fragLimitTimeout: int, s: Respawn, spectator: int, n: nat): (r: Respawn)
    requires n <= |s.ents| && |s.ents| <= |s.ps|
    ensures |r.ents| == |s.ents| && |r.ps| == |s.ps|
  {
    if n == 0 then s
    else RespawnStep(gt, fragLimitTimeout, RespawnsUpTo(gt, fragLimitTimeout, s, spectator, n - 1), n - 1, spectator)
  }

  /** The phase CheckRespawns can leave: unchanged, or GameReview after a running match was aborted. */
  predicate PhaseKeptOrAborted(before: GameState, after: GameState) {
    after == before || (Running(before) && after == GameReview)
  }

  /**
   * From `s` to `r` the phase is kept, with the scheduled change kept too,
   * or a running match was aborted to GameReview with nothing scheduled.
   */
  predicate AbortOnly(s: Respawn, r: Respawn) {
    && PhaseKeptOrAborted(s.gs, r.gs)
    && (r.gs != s.gs ==> r.nextState == Inactive)
    && (r.gs == s.gs ==> r.nextState == s.nextState)
  }

  lemma AbortOnlyTrans(a: Respawn, b: Respawn, c: Respawn)
    requires AbortOnly(a, b) && AbortOnly(b, c)
    ensures AbortOnly(a, c)
  {
  }

  lemma AbortPhase(gt: GameType, s: Respawn)
    requires |s.ents| <= |s.ps|
    ensures AbortOnly(s, AbortChecked(gt, s))
  {
  }

  /**
   * CheckRespawns changes the phase only by aborting a running match to
   * GameReview, and then clears any scheduled phase change; otherwise the
   * scheduled change stays.
   */
  lemma {:induction false} RespawnsPhase(gt: GameType, fragLimitTimeout: int, s: Respawn, spectator: int, n: nat)
    requires n <= |s.ents| && |s.ents| <= |s.ps|
    ensures AbortOnly(s, RespawnsUpTo(gt, fragLimitTimeout, s, spectator, n))
  {
    if n > 0 {
      RespawnsPhase(gt, fragLimitTimeout, s, spectator, n - 1);
      StepPhaseUpTo(gt, fragLimitTimeout, s, spectator, n);
      AbortOnlyTrans(s, RespawnsUpTo(gt, fragLimitTimeout, s, spectator, n - 1),
                     RespawnsUpTo(gt, fragLimitTimeout, s, spectator, n));
    }
  }

  lemma StepPhaseUpTo(gt: GameType, fragLimitTimeout: int, s: Respawn, spectator: int, n: nat)
    requires 0 < n <= |s.ents| && |s.ents| <= |s.ps|
    ensures AbortOnly(RespawnsUpTo(gt, fragLimitTimeout, s, spectator, n - 1),
                      RespawnsUpTo(gt, fragLimitTimeout, s, spectator, n))
  {
    StepPhase(gt, fragLimitTimeout, RespawnsUpTo(gt, fragLimitTimeout, s, spectator, n - 1), n - 1, spectator);
  }

  lemma StepPhase(gt: GameType, fragLimitTimeout: int, s: Respawn, i: int, spectator: int)
    requires 0 <= i < |s.ents| && |s.ents| <= |s.ps|
    ensures AbortOnly(s, RespawnStep(gt, fragLimitTimeout, s, i, spectator))
  {
    if s.ents[i].Some? {
      var p := s.ents[i].value;
      if WantRespawn(p, s.ps[i]) || i == spectator {
        if s.gs == SuddenDeath && gt != GameLastMan && fragLimitTimeout == 0 && !(gt == GameTDM || p.isLeader) {
          AbortPhase(gt, SetSpectate(s, i, true));
        }
      } else if p.wantSpectate && !p.spectating {
        AbortPhase(gt, SetSpectate(s.(ps := s.ps[i := s.ps[i].(fragCount := 0)]), i, true));
      }
    }
  }

  /**
   * A player who chooses to spectate while in the game has the score reset
   * and spectates from then on (unless the match is aborted, when everyone
   * spectates anyway).
   */
  lemma VoluntarySpectate(gt: GameType, fragLimitTimeout: int, s: Respawn, i: int, spectator: int)
    requires 0 <= i < |s.ents| && |s.ents| <= |s.ps| && s.ents[i].Some?
    requires !WantRespawn(s.ents[i].value, s.ps[i]) && i != spectator
    requires s.ents[i].value.wantSpectate && !s.ents[i].value.spectating
    ensures var r := RespawnStep(gt, fragLimitTimeout, s, i, spectator);
      r.ps[i].fragCount == 0 && r.ents[i].Some? && r.ents[i].value.spectating
  {
  }

  /**
   * In sudden death outside last man standing, while no end delay runs, only
   * a leader (or, in TDM, anyone) may come back in; any other player who asks
   * is sent to spectate.
   */
  lemma SuddenDeathOnlyLeaders(gt: GameType, s: Respawn, i: int, spectator: int)
    requires 0 <= i < |s.ents| && |s.ents| <= |s.ps| && s.ents[i].Some?
    requires s.gs == SuddenDeath && gt != GameLastMan && gt != GameTDM
    requires WantRespawn(s.ents[i].value, s.ps[i]) || i == spectator
    ensures var r := RespawnStep(gt, 0, s, i, spectator);
      r.ents[i].Some? && (r.ents[i].value.spectating <==> !s.ents[i].value.isLeader)
  {
  }

  lemma {:induction false} NoneLeftMeans(ents: Entities, ps: seq<PlayerState>, n: nat)
    requires n <= |ents|
    ensures NoneLeft(ents, ps, n) <==> forall j :: 0 <= j < n && Plays(ents, ps, j) ==> ents[j].value.lastManOver
  {
    if n > 0 {
      NoneLeftMeans(ents, ps, n - 1);
    }
  }

  /**
   * Last man standing: a player out of lives is marked out, scored
   * LASTMAN_NOLIVES and sent to spectate, unless that leaves nobody with
   * lives, in which case the player stays in so that the match can end.
   */
  lemma LastManOut(fragLimitTimeout: int, s: Respawn, i: int)
    requires IsPlayer(s.ents, i) && i < |s.ps| && |s.ents| <= |s.ps|
    requires s.gs == GameOn || s.gs == SuddenDeath
    requires !(s.gs == GameOn && s.ps[i].fragCount > 0 && s.ents[i].value.lastManPresent)
    requires !(s.ents[i].value.lastManPlayAgain && s.ents[i].value.lastManPresent)
    requires fragLimitTimeout == 0 && !s.ents[i].value.lastManOver
    ensures var r := LastManStep(fragLimitTimeout, s, i);
      && r.ents[i].Some? && r.ents[i].value.lastManOver
      && r.ps[i].fragCount == LASTMAN_NOLIVES
      && (r.ents[i].value.spectating <==>
            exists j :: 0 <= j < |r.ents| && Plays(r.ents, r.ps, j) && !r.ents[j].value.lastManOver)
  {
    var p := s.ents[i].value;
    var out := s.(ents := s.ents[i := Some(Spectate(p.(lastManOver := true), true))],
                  ps := s.ps[i := s.ps[i].(fragCount := LASTMAN_NOLIVES)]);
    NoneLeftMeans(out.ents, out.ps, |out.ents|);
    var r := LastManStep(fragLimitTimeout, s, i);
    if !NoneLeft(out.ents, out.ps, |out.ents|) {
      assert r == out;
    } else {
      assert r == SetSpectate(out, i, false);
      forall j | 0 <= j < |r.ents| && Plays(r.ents, r.ps, j) ensures r.ents[j].value.lastManOver {
        assert Plays(out.ents, out.ps, j);
      }
    }
  }

  /**
   * SuddenRespawn: in last man standing, every player who can play and is
   * not out is allowed back in once; elsewhere nothing changes.
   */
  function PlayAgainEnts(gt: GameType, ents: Entities, ps: seq<PlayerState>): (r: Entities)
    requires |ents| <= |ps|
    ensures |r| == |ents|
  {
    seq(|ents|, i requires 0 <= i < |ents| =>
      if gt == GameLastMan && ents[i].Some? && CanPlay(ents[i].value, ps[i]) && !ents[i].value.lastManOver
      then Some(ents[i].value.(lastManPlayAgain := true)) else ents[i])
  }

  /**
   * When an end delay is cancelled in last man standing, every player who
   * still has lives and was present when the match started is put back in
   * by the next CheckRespawns, without being marked out.
   */
  lemma SuddenRespawnLetsBackIn(fragLimitTimeout: int, s: Respawn, i: int)
    requires |s.ents| <= |s.ps| && IsPlayer(s.ents, i) && (s.gs == GameOn || s.gs == SuddenDeath)
    requires CanPlay(s.ents[i].value, s.ps[i]) && !s.ents[i].value.lastManOver && s.ents[i].value.lastManPresent
    ensures var t := s.(ents := PlayAgainEnts(GameLastMan, s.ents, s.ps));
      && IsPlayer(t.ents, i)
      && LastManStep(fragLimitTimeout, t, i) == SetSpectate(t, i, false)
      && !LastManStep(fragLimitTimeout, t, i).ents[i].value.spectating
      && !LastManStep(fragLimitTimeout, t, i).ents[i].value.lastManOver
  {
  }
}

