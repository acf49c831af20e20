/**
 * Head counts: NumActualClients, EnoughClientsToPlay and AllPlayersReady.
 */
module MpCount {
  import opened Wrappers
  import opened MpTypes

  /** A player among the clients who can play (CanPlay). */
  predicate Plays(ents: Entities, ps: seq<PlayerState>, i: int) {
    IsPlayer(ents, i) && i < |ps| && CanPlay(ents[i].value, ps[i])
  }

  /** NumActualClients' count over clients 0 .. n-1: players, or only those who can play. */
  function ClientCount(ents: Entities, ps: seq<PlayerState>, countSpectators: bool, n: nat): nat
    requires n <= |ents|
  {
    if n == 0 then 0
    else ClientCount(ents, ps, countSpectators, n - 1)
         + (if IsPlayer(ents, n - 1) && (countSpectators || Plays(ents, ps, n - 1)) then 1 else 0)
  }

  /** NumActualClients' team count over clients 0 .. n-1: players of `team` who can play. */
  function TeamCount(ents: Entities, ps: seq<PlayerState>, team: int, n: nat): nat
    requires n <= |ents|
  {
    if n == 0 then 0
    else TeamCount(ents, ps, team, n - 1)
         + (if Plays(ents, ps, n - 1) && ents[n - 1].value.team == team then 1 else 0)
  }

  /**
   * The counts agree with each other: the players who can play are split
   * between the two teams, and are no more than all players, who are no more
   * than the clients.
   */
  lemma {:induction false} CountsAgree(ents: Entities, ps: seq<PlayerState>, n: nat)
    requires n <= |ents| && EntitiesValid(ents)
    ensures ClientCount(ents, ps, false, n) == TeamCount(ents, ps, 0, n) + TeamCount(ents, ps, 1, n)
    ensures ClientCount(ents, ps, false, n) <= ClientCount(ents, ps, true, n) <= n
  {
    if n > 0 {
      CountsAgree(ents, ps, n - 1);
    }
  }

  /** A count of at least two means two distinct clients who qualify. */
  lemma {:induction false} TwoCounted(ents: Entities, ps: seq<PlayerState>, n: nat)
    requires n <= |ents|
    ensures ClientCount(ents, ps, false, n) >= 2 <==>
            exists a, b :: 0 <= a < b < n && Plays(ents, ps, a) && Plays(ents, ps, b)
  {
    if n > 0 {
      TwoCounted(ents, ps, n - 1);
      OneCounted(ents, ps, n - 1);
      var m := n - 1;
      if ClientCount(ents, ps, false, n) >= 2 && !(ClientCount(ents, ps, false, m) >= 2) {
        var a :| 0 <= a < m && Plays(ents, ps, a);
        assert Plays(ents, ps, m);
      }
      if a, b :| 0 <= a < b < n && Plays(ents, ps, a) && Plays(ents, ps, b) {
        if b < m {
          assert ClientCount(ents, ps, false, m) >= 2;
        } else {
          assert ClientCount(ents, ps, false, m) >= 1;
        }
      }
    }
  }

  lemma {:induction false} OneCounted(ents: Entities, ps: seq<PlayerState>, n: nat)
    requires n <= |ents|
    ensures ClientCount(ents, ps, false, n) >= 1 <==> exists a :: 0 <= a < n && Plays(ents, ps, a)
  {
    if n > 0 {
      OneCounted(ents, ps, n - 1);
      var m := n - 1;
      if a :| 0 <= a < n && Plays(ents, ps, a) {
        if a < m {
          assert ClientCount(ents, ps, false, m) >= 1;
        }
      }
    }
  }

  /** EnoughClientsToPlay: two players who can play, and in TDM one on each team. */
  predicate EnoughToPlay(gt: GameType, ents: Entities, ps: seq<PlayerState>) {
    var clients := ClientCount(ents, ps, false, |ents|);
    if gt == GameTDM then
      clients >= 2 && TeamCount(ents, ps, 0, |ents|) != 0 && TeamCount(ents, ps, 1, |ents|) != 0
    else clients >= 2
  }

  lemma {:induction false} TeamCounted(ents: Entities, ps: seq<PlayerState>, team: int, n: nat)
    requires n <= |ents|
    ensures TeamCount(ents, ps, team, n) != 0 <==>
            exists a :: 0 <= a < n && Plays(ents, ps, a) && ents[a].value.team == team
  {
    if n > 0 {
      TeamCounted(ents, ps, team, n - 1);
    }
  }

  /**
   * EnoughClientsToPlay holds exactly when two distinct players can play,
   * and in TDM when each team has a player who can play.
   */
  lemma EnoughToPlayMeans(gt: GameType, ents: Entities, ps: seq<PlayerState>)
    requires EntitiesValid(ents)
    ensures EnoughToPlay(gt, ents, ps) <==>
      && (exists a, b :: 0 <= a < b < |ents| && Plays(ents, ps, a) && Plays(ents, ps, b))
      && (gt == GameTDM ==>
            && (exists a :: 0 <= a < |ents| && Plays(ents, ps, a) && ents[a].value.team == 0)
            && (exists a :: 0 <= a < |ents| && Plays(ents, ps, a) && ents[a].value.team == 1))
  {
    TwoCounted(ents, ps, |ents|);
    TeamCounted(ents, ps, 0, |ents|);
    TeamCounted(ents, ps, 1, |ents|);
  }

  /** IsReady: the player said ready, or was forced ready. */
  predicate IsReady(p: Player) {
    p.ready || p.forcedReady
  }

  /** Every player the ready check looks at among clients 0 .. n-1 is ready. */
  predicate ReadyUpTo(gt: GameType, ents: Entities, ps: seq<PlayerState>, seats: Seats, n: nat)
    requires n <= |ents|
  {
    n == 0 ||
      (ReadyUpTo(gt, ents, ps, seats, n - 1)
       && (!(gt == GameTourney && !Seated(seats, n - 1)) && Plays(ents, ps, n - 1) ==> IsReady(ents[n - 1].value)))
  }

  /** AllPlayersReady, with si_warmup as `warmup`. */
  predicate AllReady(gt: GameType, ents: Entities, ps: seq<PlayerState>, seats: Seats, warmup: bool) {
    && ClientCount(ents, ps, false, |ents|) > 1
    && (gt == GameTDM ==> TeamCount(ents, ps, 0, |ents|) != 0 && TeamCount(ents, ps, 1, |ents|) != 0)
    && (warmup ==> ReadyUpTo(gt, ents, ps, seats, |ents|))
  }

  lemma {:induction false} ReadyUpToMeans(gt: GameType, ents: Entities, ps: seq<PlayerState>, seats: Seats, n: nat)
    requires n <= |ents|
    ensures ReadyUpTo(gt, ents, ps, seats, n) <==>
      forall i :: 0 <= i < n && Plays(ents, ps, i) && (gt == GameTourney ==> Seated(seats, i)) ==> IsReady(ents[i].value)
  {
    if n > 0 {
      ReadyUpToMeans(gt, ents, ps, seats, n - 1);
    }
  }

  /**
   * A match may leave warmup only with enough players to play, and, when
   * warmup is on, with every player who can play (in a tourney every seated
   * one) ready.
   */
  lemma AllReadyMeans(gt: GameType, ents: Entities, ps: seq<PlayerState>, seats: Seats, warmup: bool)
    requires EntitiesValid(ents)
    ensures AllReady(gt, ents, ps, seats, warmup) <==>
      && EnoughToPlay(gt, ents, ps)
      && (warmup ==> forall i :: 0 <= i < |ents| && Plays(ents, ps, i) && (gt == GameTourney ==> Seated(seats, i))
                                 ==> IsReady(ents[i].value))
  {
    ReadyUpToMeans(gt, ents, ps, seats, |ents|);
  }
}
