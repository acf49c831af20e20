/**
 * Score bookkeeping: TeamScore, PlayerDeath and UpdateWinsLosses as
 * functions from the old score table to the new one.
 */
module MpScore {
  import opened Wrappers
  import opened MpTypes

  /** Client `i` holds a player of `team`. */
  predicate OnTeam(ents: Entities, i: int, team: int) {
    IsPlayer(ents, i) && ents[i].value.team == team
  }

  /** The table after TeamScore(scorer, team, delta). */
  function TeamScored(ps: seq<PlayerState>, ents: Entities, scorer: int, team: int, delta: int): seq<PlayerState>
  {
    seq(|ps|, i requires 0 <= i < |ps| =>
      ps[i].(fragCount := ps[i].fragCount + (if i == scorer then delta else 0),
             teamFragCount := ps[i].teamFragCount + (if OnTeam(ents, i, team) then delta else 0)))
  }

  /** Teammates show the same team score. */
  ghost predicate TeamScoresAgree(ents: Entities, ps: seq<PlayerState>) {
    forall i, j ::
      (0 <= i < |ps| && 0 <= j < |ps| && IsPlayer(ents, i) && IsPlayer(ents, j)
       && ents[i].value.team == ents[j].value.team)
      ==> ps[i].teamFragCount == ps[j].teamFragCount
  }

  /** A team score never splits a team: teammates who agreed still agree. */
  lemma TeamScoreKeepsAgreement(ps: seq<PlayerState>, ents: Entities, scorer: int, team: int, delta: int)
    requires TeamScoresAgree(ents, ps)
    ensures TeamScoresAgree(ents, TeamScored(ps, ents, scorer, team, delta))
  {
    var r := TeamScored(ps, ents, scorer, team, delta);
    forall i, j | 0 <= i < |r| && 0 <= j < |r| && IsPlayer(ents, i) && IsPlayer(ents, j)
      && ents[i].value.team == ents[j].value.team
      ensures r[i].teamFragCount == r[j].teamFragCount
    {
      assert OnTeam(ents, i, team) == OnTeam(ents, j, team);
    }
  }

  /** Sum of the frag counts of the table. */
  function FragSum(ps: seq<PlayerState>): int {
    if |ps| == 0 then 0 else FragSum(ps[..|ps| - 1]) + ps[|ps| - 1].fragCount
  }

  /** fragCount of client `c` moved by `d`: the sum moves by `d`. */
  lemma {:induction false} FragSumBump(ps: seq<PlayerState>, c: int, d: int)
    requires 0 <= c < |ps|
    ensures FragSum(ps[c := ps[c].(fragCount := ps[c].fragCount + d)]) == FragSum(ps) + d
  {
    var n := |ps| - 1;
    var q := ps[c := ps[c].(fragCount := ps[c].fragCount + d)];
    if c < n {
      assert q[..n] == ps[..n][c := ps[c].(fragCount := ps[c].fragCount + d)];
      FragSumBump(ps[..n], c, d);
    } else {
      assert q[..n] == ps[..n];
    }
  }

  /**
   * The table after PlayerDeath(dead, killer); killer is -1 when the world
   * killed. In TDM a kill moves the killer's team by one, a teamkill or
   * suicide down by one; in last man standing the dead player loses a life.
   */
  function DeathScored(gt: GameType, ents: Entities, ps: seq<PlayerState>, dead: int, killer: int): seq<PlayerState>
    requires IsPlayer(ents, dead) && dead < |ps|
    requires killer == -1 || (IsPlayer(ents, killer) && killer < |ps|)
  {
    if killer == -1 then
      ps[dead := ps[dead].(fragCount := ps[dead].fragCount - 1)]
    else if gt == GameLastMan then
      ps[dead := ps[dead].(fragCount := ps[dead].fragCount - 1)]
    else if gt == GameTDM then
      var k := ents[killer].value;
      var d := if killer == dead || k.team == ents[dead].value.team then -1 else 1;
      TeamScored(ps, ents, killer, k.team, d)
    else
      ps[killer := ps[killer].(fragCount := ps[killer].fragCount + (if killer == dead then -1 else 1))]
  }

  /**
   * Outside TDM every death moves the total of frag counts by exactly one:
   * up for a kill of another player, down for a suicide, a world death or a
   * lost last-man life.
   */
  lemma {:induction false} DeathMovesFragSumByOne(gt: GameType, ents: Entities, ps: seq<PlayerState>, dead: int, killer: int)
    requires gt != GameTDM
    requires IsPlayer(ents, dead) && dead < |ps|
    requires killer == -1 || (IsPlayer(ents, killer) && killer < |ps|)
    ensures FragSum(DeathScored(gt, ents, ps, dead, killer))
         == FragSum(ps) + (if killer != -1 && killer != dead && gt != GameLastMan then 1 else -1)
  {
    var r := DeathScored(gt, ents, ps, dead, killer);
    if killer == -1 || gt == GameLastMan {
      assert r == ps[dead := ps[dead].(fragCount := ps[dead].fragCount - 1)];
      FragSumBump(ps, dead, -1);
    } else {
      var d := if killer == dead then -1 else 1;
      assert r == ps[killer := ps[killer].(fragCount := ps[killer].fragCount + d)];
      FragSumBump(ps, killer, d);
    }
  }

  /** In TDM a death changes only the killer's frags and the killer's team score, by the same one. */
  lemma DeathInTeamPlay(ents: Entities, ps: seq<PlayerState>, dead: int, killer: int)
    requires IsPlayer(ents, dead) && dead < |ps| && IsPlayer(ents, killer) && killer < |ps|
    requires TeamScoresAgree(ents, ps)
    ensures var r := DeathScored(GameTDM, ents, ps, dead, killer);
      var d := if killer == dead || ents[killer].value.team == ents[dead].value.team then -1 else 1;
      && TeamScoresAgree(ents, r)
      && r[killer].fragCount == ps[killer].fragCount + d
      && forall i :: 0 <= i < |ps| ==>
           r[i].teamFragCount == ps[i].teamFragCount + (if OnTeam(ents, i, ents[killer].value.team) then d else 0)
  {
    var k := ents[killer].value;
    var d := if killer == dead || k.team == ents[dead].value.team then -1 else 1;
    TeamScoreKeepsAgreement(ps, ents, killer, k.team, d);
  }

  /** The table after UpdateWinsLosses(winner); winner is -1 for a draw. */
  function WinsCounted(gt: GameType, ents: Entities, ps: seq<PlayerState>, winner: int): seq<PlayerState>
    requires winner == -1 || IsPlayer(ents, winner)
  {
    seq(|ps|, i requires 0 <= i < |ps| =>
      if winner != -1 && IsPlayer(ents, i)
         && (i == winner || (gt == GameTDM && ents[i].value.team == ents[winner].value.team))
      then ps[i].(wins := ps[i].wins + 1) else ps[i])
  }

  /** Only the winner, and in TDM the winner's team, gain a win, and exactly one. */
  lemma WinsGoToWinners(gt: GameType, ents: Entities, ps: seq<PlayerState>, winner: int)
    requires winner == -1 || IsPlayer(ents, winner)
    requires winner < |ps|
    ensures var r := WinsCounted(gt, ents, ps, winner);
      && |r| == |ps|
      && (winner != -1 ==> r[winner].wins == ps[winner].wins + 1)
      && (forall i :: 0 <= i < |ps| && r[i] != ps[i] ==>
            winner != -1 && r[i] == ps[i].(wins := ps[i].wins + 1)
            && (i == winner || (gt == GameTDM && OnTeam(ents, i, ents[winner].value.team))))
  {
  }

  /** A draw (no winner) changes nobody's wins. */
  lemma NoWinnerNoWins(gt: GameType, ents: Entities, ps: seq<PlayerState>)
    ensures WinsCounted(gt, ents, ps, -1) == ps
  {
    assert forall i :: 0 <= i < |ps| ==> WinsCounted(gt, ents, ps, -1)[i] == ps[i];
  }
}
