/**
 * Who leads the match (FragLeader) and whether the frag limit ends it
 * (FragLimitHit), stated over a MatchView.
 */
module MpLeader {
  import opened Wrappers
  import opened MpTypes

  /** A client that takes part in the running maximum of FragLeader's first loop. */
  predicate Contender(v: MatchView, i: int) {
    && IsPlayer(v.ents, i) && i < |v.ps|
    && CanPlay(v.ents[i].value, v.ps[i])
    && (v.gt == GameTourney ==> Seated(v.seats, i))
    && !v.ents[i].value.lastManOver
  }

  /** The score compared: team score in TDM, own frags otherwise. */
  function Score(v: MatchView, i: int): int
    requires 0 <= i < |v.ps|
  {
    if v.gt == GameTDM then v.ps[i].teamFragCount else v.ps[i].fragCount
  }

  /** The running maximum over clients 0 .. n-1, started at -9999. */
  function HighPrefix(v: MatchView, n: nat): int
    requires n <= |v.ents|
  {
    if n == 0 then FRAG_LEADER_FLOOR
    else
      var h := HighPrefix(v, n - 1);
      if Contender(v, n - 1) && Score(v, n - 1) > h then Score(v, n - 1) else h
  }

  function High(v: MatchView): int {
    HighPrefix(v, |v.ents|)
  }

  /** A client FragLeader's second loop marks as leader. */
  predicate Top(v: MatchView, i: int) {
    Contender(v, i) && !v.ents[i].value.spectating && Score(v, i) >= High(v)
  }

  /** Number of marked leaders among clients 0 .. n-1. */
  function TopCount(v: MatchView, n: nat): nat
    requires n <= |v.ents|
  {
    if n == 0 then 0 else TopCount(v, n - 1) + (if Top(v, n - 1) then 1 else 0)
  }

  /** The last marked leader among clients 0 .. n-1, or -1. */
  function LastTop(v: MatchView, n: nat): int
    requires n <= |v.ents|
  {
    if n == 0 then -1 else if Top(v, n - 1) then n - 1 else LastTop(v, n - 1)
  }

  /** Whether some marked leader among clients 0 .. n-1 plays for `team`. */
  predicate TeamLeads(v: MatchView, n: nat, team: int)
    requires n <= |v.ents|
  {
    n > 0 && (TeamLeads(v, n - 1, team) || (Top(v, n - 1) && v.ents[n - 1].value.team == team))
  }

  /** FragLeader's result: a client number, or -1 for NULL. */
  function FragLeaderOf(v: MatchView): (r: int)
    ensures r == -1 || (0 <= r < |v.ents| && Top(v, r))
  {
    var n := |v.ents|;
    LastTopIsTop(v, n);
    if v.gt != GameTDM then
      (if TopCount(v, n) > 1 then -1 else LastTop(v, n))
    else
      (if TeamLeads(v, n, 0) && TeamLeads(v, n, 1) then -1 else LastTop(v, n))
  }

  /** The running maximum bounds every contender's score and is reached unless nobody beats -9999. */
  lemma {:induction false} HighPrefixIsMax(v: MatchView, n: nat)
    requires n <= |v.ents|
    ensures forall i :: 0 <= i < n && Contender(v, i) ==> Score(v, i) <= HighPrefix(v, n)
    ensures HighPrefix(v, n) == FRAG_LEADER_FLOOR
            || exists i :: 0 <= i < n && Contender(v, i) && Score(v, i) == HighPrefix(v, n)
    ensures HighPrefix(v, n) >= FRAG_LEADER_FLOOR
  {
    if n > 0 {
      HighPrefixIsMax(v, n - 1);
    }
  }

  /** The last leader is a marked leader, and -1 exactly when there is none. */
  lemma {:induction false} LastTopIsTop(v: MatchView, n: nat)
    requires n <= |v.ents|
    ensures LastTop(v, n) == -1 <==> TopCount(v, n) == 0
    ensures LastTop(v, n) != -1 ==> 0 <= LastTop(v, n) < n && Top(v, LastTop(v, n))
    ensures LastTop(v, n) != -1 ==> forall i :: LastTop(v, n) < i < n ==> !Top(v, i)
    ensures TopCount(v, n) == 0 <==> forall i :: 0 <= i < n ==> !Top(v, i)
  {
    if n > 0 {
      LastTopIsTop(v, n - 1);
    }
  }

  /** Client `p` is the only marked leader among clients 0 .. n-1. */
  ghost predicate UniqueTop(v: MatchView, n: nat, p: int) {
    0 <= p < n && Top(v, p) && forall q :: 0 <= q < n && Top(v, q) ==> q == p
  }

  /** A count of one is one unique leader. */
  lemma {:induction false} TopCountOne(v: MatchView, n: nat)
    requires n <= |v.ents|
    ensures TopCount(v, n) == 1 <==> exists p :: UniqueTop(v, n, p)
  {
    if n > 0 {
      TopCountOne(v, n - 1);
      LastTopIsTop(v, n - 1);
      if Top(v, n - 1) {
        if TopCount(v, n) == 1 {
          assert UniqueTop(v, n, n - 1);
        } else {
          var w := LastTop(v, n - 1);
          assert Top(v, w) && w != n - 1;
          forall p ensures !UniqueTop(v, n, p) {
            if p != n - 1 {
              assert Top(v, n - 1);
            }
          }
        }
      } else {
        var m := n - 1;
        assert TopCount(v, n) == TopCount(v, m);
        if p :| UniqueTop(v, n, p) {
          assert UniqueTop(v, m, p);
        }
        if p :| UniqueTop(v, m, p) {
          assert UniqueTop(v, n, p);
        }
      }
    }
  }

  /** TeamLeads is the existence of a marked leader of that team. */
  lemma {:induction false} TeamLeadsExists(v: MatchView, n: nat, team: int)
    requires n <= |v.ents|
    ensures TeamLeads(v, n, team) <==>
            exists i :: 0 <= i < n && Top(v, i) && v.ents[i].value.team == team
  {
    if n > 0 {
      TeamLeadsExists(v, n - 1, team);
    }
  }

  /**
   * FragLeader outside TDM: a client is returned exactly when one eligible,
   * non-eliminated, non-spectating player holds the top score, and it is
   * that player; its score is at least every contender's.
   */
  lemma FragLeaderSolo(v: MatchView)
    requires v.gt != GameTDM
    ensures FragLeaderOf(v) != -1 <==>
            exists p :: Top(v, p) && forall q :: Top(v, q) ==> q == p
    ensures FragLeaderOf(v) != -1 ==>
            Top(v, FragLeaderOf(v))
            && forall q :: Contender(v, q) ==> Score(v, q) <= Score(v, FragLeaderOf(v))
  {
    var n := |v.ents|;
    TopCountOne(v, n);
    LastTopIsTop(v, n);
    HighPrefixIsMax(v, n);
    if exists p :: Top(v, p) && forall q :: Top(v, q) ==> q == p {
      var p :| Top(v, p) && forall q :: Top(v, q) ==> q == p;
      assert UniqueTop(v, n, p);
    }
    if FragLeaderOf(v) != -1 {
      var p :| UniqueTop(v, n, p);
      assert forall q :: Top(v, q) ==> q == p;
    }
  }

  /**
   * FragLeader in TDM: NULL exactly when no player is marked, or both teams
   * hold a marked top scorer; otherwise a marked top scorer.
   */
  lemma FragLeaderTeams(v: MatchView)
    requires v.gt == GameTDM
    ensures FragLeaderOf(v) == -1 <==>
            (forall i :: !Top(v, i))
            || ((exists i :: Top(v, i) && v.ents[i].value.team == 0)
                && (exists i :: Top(v, i) && v.ents[i].value.team == 1))
    ensures FragLeaderOf(v) != -1 ==> Top(v, FragLeaderOf(v))
  {
    var n := |v.ents|;
    TeamLeadsExists(v, n, 0);
    TeamLeadsExists(v, n, 1);
    LastTopIsTop(v, n);
  }

  /**
   * FragLimitHit: the leader wins once it reaches the frag limit (a limit of
   * zero or less means MP_PLAYER_MAXFRAGS); in last man standing the leader
   * wins once no other player who can play has lives left.
   */
  function FragLimitWinner(v: MatchView, fragLimit: int): (w: int)
  {
    var leader := FragLeaderOf(v);
    var limit := if fragLimit <= 0 then MP_PLAYER_MAXFRAGS else fragLimit;
    if leader == -1 then -1
    else if v.gt == GameLastMan then
      (if OthersHaveLives(v, leader, |v.ents|) then -1 else leader)
    else if v.gt == GameTDM then
      (if v.ps[leader].teamFragCount >= limit then leader else -1)
    else
      (if v.ps[leader].fragCount >= limit then leader else -1)
  }

  /** Some player among 0 .. n-1 other than `leader` can play and has frags left. */
  predicate OthersHaveLives(v: MatchView, leader: int, n: nat)
    requires n <= |v.ents|
  {
    n > 0 &&
      (OthersHaveLives(v, leader, n - 1)
       || (IsPlayer(v.ents, n - 1) && n - 1 < |v.ps| && CanPlay(v.ents[n - 1].value, v.ps[n - 1])
           && n - 1 != leader && v.ps[n - 1].fragCount > 0))
  }

  /** OthersHaveLives is the existence of another player who can play and has frags left. */
  lemma {:induction false} OthersHaveLivesExists(v: MatchView, leader: int, n: nat)
    requires n <= |v.ents|
    ensures OthersHaveLives(v, leader, n) <==>
            exists i :: 0 <= i < n && IsPlayer(v.ents, i) && i < |v.ps| && CanPlay(v.ents[i].value, v.ps[i])
                        && i != leader && v.ps[i].fragCount > 0
  {
    if n > 0 {
      OthersHaveLivesExists(v, leader, n - 1);
    }
  }

  /**
   * The frag limit ends the match with a winner exactly when FragLeader
   * names a leader and, in last man standing, no other player who can play
   * has frags left, in TDM the leader's team score, elsewhere the leader's
   * frags, reach the limit (MP_PLAYER_MAXFRAGS when the limit is zero or less).
   */
  lemma FragLimitWinnerMeans(v: MatchView, fragLimit: int)
    ensures var w := FragLimitWinner(v, fragLimit);
      var leader := FragLeaderOf(v);
      var limit := if fragLimit <= 0 then MP_PLAYER_MAXFRAGS else fragLimit;
      && (w == -1 || (w == leader && Top(v, w)))
      && (w != -1 <==>
            leader != -1
            && (v.gt == GameLastMan ==>
                  forall i ::
                    (0 <= i < |v.ents| && IsPlayer(v.ents, i) && i < |v.ps|
                     && CanPlay(v.ents[i].value, v.ps[i]) && i != leader) ==> v.ps[i].fragCount <= 0)
            && (v.gt == GameTDM ==> v.ps[leader].teamFragCount >= limit)
            && (v.gt != GameLastMan && v.gt != GameTDM ==> v.ps[leader].fragCount >= limit))
  {
    var leader := FragLeaderOf(v);
    if leader != -1 {
      OthersHaveLivesExists(v, leader, |v.ents|);
    }
  }

  /** The entities after FragLeader: each player's leader flag records whether it is a marked leader. */
  function MarkLeaders(v: MatchView): (r: Entities)
    ensures |r| == |v.ents|
  {
    seq(|v.ents|, i requires 0 <= i < |v.ents| =>
      if v.ents[i].None? then None else Some(v.ents[i].value.(isLeader := Top(v, i))))
  }

  /** Two views that differ at most in the players' leader flags. */
  ghost predicate SameButLeaders(v: MatchView, w: MatchView) {
    && v.gt == w.gt && v.ps == w.ps && v.seats == w.seats && |v.ents| == |w.ents|
    && forall i :: 0 <= i < |v.ents| ==>
         (v.ents[i].Some? <==> w.ents[i].Some?)
         && (v.ents[i].Some? ==> v.ents[i].value.(isLeader := false) == w.ents[i].value.(isLeader := false))
  }

  lemma {:induction false} SameButLeadersPrefix(v: MatchView, w: MatchView, n: nat)
    requires SameButLeaders(v, w) && n <= |v.ents|
    ensures HighPrefix(v, n) == HighPrefix(w, n)
  {
    if n > 0 {
      SameButLeadersPrefix(v, w, n - 1);
      var i := n - 1;
      if v.ents[i].Some? {
        assert v.ents[i].value.(isLeader := false) == w.ents[i].value.(isLeader := false);
      }
      assert Contender(v, i) == Contender(w, i);
    }
  }

  lemma {:induction false} SameButLeadersCounts(v: MatchView, w: MatchView, n: nat)
    requires SameButLeaders(v, w) && n <= |v.ents|
    requires forall i :: 0 <= i < |v.ents| ==> Top(v, i) == Top(w, i)
    ensures TopCount(v, n) == TopCount(w, n) && LastTop(v, n) == LastTop(w, n)
    ensures TeamLeads(v, n, 0) == TeamLeads(w, n, 0) && TeamLeads(v, n, 1) == TeamLeads(w, n, 1)
  {
    if n > 0 {
      SameButLeadersCounts(v, w, n - 1);
      var i := n - 1;
      if v.ents[i].Some? {
        assert v.ents[i].value.(isLeader := false) == w.ents[i].value.(isLeader := false);
      }
    }
  }

  /** The leader flags do not take part in choosing the leader. */
  lemma SameButLeadersTop(v: MatchView, w: MatchView)
    requires SameButLeaders(v, w)
    ensures forall i :: 0 <= i < |v.ents| ==> Top(v, i) == Top(w, i)
    ensures FragLeaderOf(v) == FragLeaderOf(w)
  {
    SameButLeadersPrefix(v, w, |v.ents|);
    forall i | 0 <= i < |v.ents| ensures Top(v, i) == Top(w, i) {
      if v.ents[i].Some? {
        assert v.ents[i].value.(isLeader := false) == w.ents[i].value.(isLeader := false);
      }
    }
    SameButLeadersCounts(v, w, |v.ents|);
  }

  /**
   * FragLeader is idempotent: after it has marked the leaders, running it
   * again names the same leader and marks the same players.
   */
  lemma MarkLeadersIdempotent(v: MatchView)
    ensures var w := v.(ents := MarkLeaders(v));
      FragLeaderOf(w) == FragLeaderOf(v) && MarkLeaders(w) == MarkLeaders(v)
  {
    var w := v.(ents := MarkLeaders(v));
    assert SameButLeaders(v, w);
    SameButLeadersTop(v, w);
  }
}
