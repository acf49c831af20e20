/**
 * Tourney seating: which waiting players FillTourneySlots puts in the two
 * seats, which place in line UpdateTourneyLine tells every other player,
 * and CycleTourneyPlayers' effect on who spectates.
 */
module MpTourney {
  import opened Wrappers
  import opened MpTypes

  /** A player FillTourneySlots may seat: present, not seated, not asking to spectate. */
  predicate Waiting(ents: Entities, seats: Seats, j: int) {
    IsPlayer(ents, j) && !Seated(seats, j) && !ents[j].value.wantSpectate
  }

  function Rank(ents: Entities, j: int): int
    requires IsPlayer(ents, j)
  {
    ents[j].value.tourneyRank
  }

  /** Seating preference: higher rank first, then the longer time in game (smaller spawnedTime). */
  predicate NoBetter(ents: Entities, a: int, b: int)
    requires IsPlayer(ents, a) && IsPlayer(ents, b)
  {
    Rank(ents, a) < Rank(ents, b)
    || (Rank(ents, a) == Rank(ents, b) && ents[a].value.spawnedTime >= ents[b].value.spawnedTime)
  }

  /** FillTourneySlots' inner scan over clients 0 .. n-1: the best waiting player, or -1. */
  function BestWaiting(ents: Entities, seats: Seats, n: nat): (b: int)
    requires n <= |ents|
    ensures b == -1 || (0 <= b < n && Waiting(ents, seats, b))
  {
    if n == 0 then -1
    else
      var b := BestWaiting(ents, seats, n - 1);
      var j := n - 1;
      if Waiting(ents, seats, j) && (b == -1 || NoBetter(ents, b, j)) then j else b
  }

  /**
   * The scan picks a most preferred waiting player: nobody waiting beats it,
   * and among equally preferred ones the highest client number wins. It is
   * -1 only when nobody waits.
   */
  lemma {:induction false} BestWaitingIsBest(ents: Entities, seats: Seats, n: nat)
    requires n <= |ents|
    ensures var b := BestWaiting(ents, seats, n);
      && (b == -1 <==> forall k :: 0 <= k < n ==> !Waiting(ents, seats, k))
      && (b != -1 ==> forall k :: 0 <= k < n && Waiting(ents, seats, k) ==>
            NoBetter(ents, k, b) && (NoBetter(ents, b, k) ==> k <= b))
  {
    if n > 0 {
      BestWaitingIsBest(ents, seats, n - 1);
    }
  }

  /** The seats after FillTourneySlots: each empty seat, in order, gets the best waiting player. */
  function FillSlots(ents: Entities, seats: Seats): (r: Seats)
  {
    var s0 := if seats[0] != -1 then seats[0] else BestWaiting(ents, seats, |ents|);
    var mid: Seats := [s0, seats[1]];
    var s1 := if seats[1] != -1 then seats[1] else BestWaiting(ents, mid, |ents|);
    [s0, s1]
  }

  /**
   * FillTourneySlots keeps occupied seats, fills an empty one with a waiting
   * player (never the other seat's), and leaves it empty only when nobody
   * else waits; so two distinct seats stay distinct.
   */
  lemma FillSlotsSeats(ents: Entities, seats: Seats)
    ensures var r := FillSlots(ents, seats);
      && (seats[0] != -1 ==> r[0] == seats[0])
      && (seats[1] != -1 ==> r[1] == seats[1])
      && (seats[0] == -1 && r[0] != -1 ==> Waiting(ents, seats, r[0]))
      && (seats[1] == -1 && r[1] != -1 ==> Waiting(ents, [r[0], seats[1]], r[1]) && r[1] != r[0])
      && (seats[0] == -1 && r[0] == -1 ==> forall k :: 0 <= k < |ents| ==> !Waiting(ents, seats, k))
      && (seats[1] == -1 && r[1] == -1 ==> forall k :: 0 <= k < |ents| ==> !Waiting(ents, [r[0], seats[1]], k))
      && (seats[0] != seats[1] || seats[0] == -1 ==> r[0] != r[1] || r[0] == -1)
  {
    var s0 := if seats[0] != -1 then seats[0] else BestWaiting(ents, seats, |ents|);
    var mid: Seats := [s0, seats[1]];
    BestWaitingIsBest(ents, seats, |ents|);
    BestWaitingIsBest(ents, mid, |ents|);
  }

  /** The preference among waiting players seated first: FillSlots sits the best one. */
  lemma FillSlotsPicksBest(ents: Entities, seats: Seats)
    requires seats[0] == -1
    ensures var r := FillSlots(ents, seats);
      r[0] != -1 ==> forall k :: 0 <= k < |ents| && Waiting(ents, seats, k) ==> NoBetter(ents, k, r[0])
  {
    BestWaitingIsBest(ents, seats, |ents|);
  }

  /** A rank under the previous place's rank; `bound` is -1 before the first place. */
  predicate Below(bound: int, rank: int) {
    bound == -1 || rank < bound
  }

  /** UpdateTourneyLine's inner scan: the first waiting player of the highest rank under `bound`, or -1. */
  function NextInLine(ents: Entities, seats: Seats, bound: int, n: nat): (b: int)
    requires n <= |ents|
    ensures b == -1 || (0 <= b < n && Waiting(ents, seats, b) && Below(bound, Rank(ents, b)))
  {
    if n == 0 then -1
    else
      var b := NextInLine(ents, seats, bound, n - 1);
      var j := n - 1;
      if Waiting(ents, seats, j) && Rank(ents, j) > (if b == -1 then -1 else Rank(ents, b))
         && Below(bound, Rank(ents, j))
      then j else b
  }

  /** The players still waiting for a place: waiting, and ranked under `bound`. */
  ghost function InLine(ents: Entities, seats: Seats, bound: int): set<int> {
    set k | 0 <= k < |ents| && Waiting(ents, seats, k) && Below(bound, Rank(ents, k))
  }

  lemma {:induction false} NextInLineIsFirstHighest(ents: Entities, seats: Seats, bound: int, n: nat)
    requires n <= |ents| && EntitiesValid(ents)
    ensures var b := NextInLine(ents, seats, bound, n);
      && (b == -1 <==> forall k :: 0 <= k < n ==> !(Waiting(ents, seats, k) && Below(bound, Rank(ents, k))))
      && (b != -1 ==> forall k :: 0 <= k < n && Waiting(ents, seats, k) && Below(bound, Rank(ents, k)) ==>
            Rank(ents, k) <= Rank(ents, b) && (Rank(ents, k) == Rank(ents, b) ==> b <= k))
  {
    if n > 0 {
      NextInLineIsFirstHighest(ents, seats, bound, n - 1);
    }
  }

  /** One TOURNEYLINE message: the client told, and its place in line. */
  datatype LineMsg = LineMsg(client: int, place: int)

  /** The messages of UpdateTourneyLine from place `j` on, under rank `bound`. */
  function LineFrom(ents: Entities, seats: Seats, bound: int, j: nat): (m: seq<LineMsg>)
    ensures forall p :: 0 <= p < |m| ==> Waiting(ents, seats, m[p].client)
    decreases |ents| + 1 - j
  {
    if j > |ents| then []
    else
      var i := NextInLine(ents, seats, bound, |ents|);
      if i == -1 then [] else [LineMsg(i, j)] + LineFrom(ents, seats, Rank(ents, i), j + 1)
  }

  /** All TOURNEYLINE messages: none outside a tourney. */
  function TourneyLine(gt: GameType, ents: Entities, seats: Seats): (m: seq<LineMsg>)
    ensures forall p :: 0 <= p < |m| ==> Waiting(ents, seats, m[p].client)
  {
    if gt == GameTourney then LineFrom(ents, seats, -1, 1) else []
  }

  /**
   * The line numbers places 1, 2, ... in order; each message goes to a
   * waiting player, each with a strictly lower rank than the one before, and
   * that player is the first waiting one of its rank.
   */
  ghost predicate LineShaped(ents: Entities, seats: Seats, bound: int, j: nat, m: seq<LineMsg>)
    requires forall p :: 0 <= p < |m| ==> IsPlayer(ents, m[p].client)
  {
    && (forall p :: 0 <= p < |m| ==> m[p].place == j + p && Below(bound, Rank(ents, m[p].client)))
    && (forall p, k :: (0 <= p < |m| && 0 <= k < |ents| && Waiting(ents, seats, k)
                       && Rank(ents, k) == Rank(ents, m[p].client)) ==> m[p].client <= k)
    && (forall p, q :: 0 <= p < q < |m| ==> Rank(ents, m[q].client) < Rank(ents, m[p].client))
  }

  lemma {:induction false} LineFromShape(ents: Entities, seats: Seats, bound: int, j: nat)
    requires EntitiesValid(ents)
    ensures LineShaped(ents, seats, bound, j, LineFrom(ents, seats, bound, j))
    decreases |ents| + 1 - j
  {
    if j <= |ents| {
      var i := NextInLine(ents, seats, bound, |ents|);
      if i != -1 {
        NextInLineIsFirstHighest(ents, seats, bound, |ents|);
        var r := Rank(ents, i);
        LineFromShape(ents, seats, r, j + 1);
        var rest := LineFrom(ents, seats, r, j + 1);
        assert LineFrom(ents, seats, bound, j) == [LineMsg(i, j)] + rest;
        LineCons(ents, seats, bound, j, i, rest);
      }
    }
  }

  /**
   * Putting the first waiting player of the highest rank under `bound` at
   * place j, in front of a line shaped under its rank, gives a line shaped
   * under `bound`.
   */
  lemma LineCons(ents: Entities, seats: Seats, bound: int, j: nat, i: int, rest: seq<LineMsg>)
    requires Waiting(ents, seats, i) && Rank(ents, i) >= 0 && Below(bound, Rank(ents, i))
    requires forall k :: 0 <= k < |ents| && Waiting(ents, seats, k) && Rank(ents, k) == Rank(ents, i) ==> i <= k
    requires forall p :: 0 <= p < |rest| ==> IsPlayer(ents, rest[p].client) && Waiting(ents, seats, rest[p].client)
    requires LineShaped(ents, seats, Rank(ents, i), j + 1, rest)
    ensures && (forall p :: 0 <= p < |[LineMsg(i, j)] + rest| ==> IsPlayer(ents, ([LineMsg(i, j)] + rest)[p].client))
            && LineShaped(ents, seats, bound, j, [LineMsg(i, j)] + rest)
  {
    var m := [LineMsg(i, j)] + rest;
    var r := Rank(ents, i);
    forall p | 0 <= p < |m| ensures IsPlayer(ents, m[p].client) && m[p].place == j + p && Below(bound, Rank(ents, m[p].client)) {
      if p > 0 {
        assert m[p] == rest[p - 1];
        assert Below(r, Rank(ents, rest[p - 1].client));
      }
    }
    forall p, k | 0 <= p < |m| && 0 <= k < |ents| && Waiting(ents, seats, k)
      && Rank(ents, k) == Rank(ents, m[p].client)
      ensures m[p].client <= k
    {
      if p > 0 {
        assert m[p] == rest[p - 1];
      }
    }
    forall p, q | 0 <= p < q < |m| ensures Rank(ents, m[q].client) < Rank(ents, m[p].client) {
      assert m[q] == rest[q - 1];
      if p > 0 {
        assert m[p] == rest[p - 1];
      } else {
        assert Below(r, Rank(ents, rest[q - 1].client));
      }
    }
  }

  /** The players among clients 0 .. n-1. */
  ghost function PlayersBelow(ents: Entities, n: int): set<int> {
    set k | 0 <= k < n && IsPlayer(ents, k)
  }

  lemma {:induction false} PlayersBelowSize(ents: Entities, n: nat)
    ensures |PlayersBelow(ents, n)| <= n
  {
    if n > 0 {
      PlayersBelowSize(ents, n - 1);
      assert PlayersBelow(ents, n) <= PlayersBelow(ents, n - 1) + {n - 1};
      SubsetSize(PlayersBelow(ents, n), PlayersBelow(ents, n - 1) + {n - 1});
    }
  }

  lemma SubsetSize(a: set<int>, b: set<int>)
    requires a <= b
    ensures |a| <= |b|
  {
    assert b == a + (b - a);
  }

  lemma InLineBound(ents: Entities, seats: Seats, bound: int)
    ensures |InLine(ents, seats, bound)| <= |ents|
  {
    assert InLine(ents, seats, bound) <= PlayersBelow(ents, |ents|);
    SubsetSize(InLine(ents, seats, bound), PlayersBelow(ents, |ents|));
    PlayersBelowSize(ents, |ents|);
  }

  /** Some message of `m` goes to a player of rank `rank`. */
  ghost predicate RankTold(ents: Entities, seats: Seats, m: seq<LineMsg>, rank: int)
    requires forall p :: 0 <= p < |m| ==> IsPlayer(ents, m[p].client)
  {
    exists p :: 0 <= p < |m| && Rank(ents, m[p].client) == rank
  }

  /**
   * Every waiting player ranked under `bound` is told a place shared with
   * its rank: some message goes to a player of the same rank, provided the
   * places left are enough for everyone still in line.
   */
  lemma {:induction false} LineFromComplete(ents: Entities, seats: Seats, bound: int, j: nat, k: int)
    requires EntitiesValid(ents)
    requires |InLine(ents, seats, bound)| <= |ents| + 1 - j
    requires 0 <= k < |ents| && Waiting(ents, seats, k) && Below(bound, Rank(ents, k))
    ensures RankTold(ents, seats, LineFrom(ents, seats, bound, j), Rank(ents, k))
    decreases |ents| + 1 - j
  {
    var m := LineFrom(ents, seats, bound, j);
    var i := NextInLine(ents, seats, bound, |ents|);
    NextInLineIsFirstHighest(ents, seats, bound, |ents|);
    var here := InLine(ents, seats, bound);
    assert k in here;
    assert j <= |ents|;
    var r := Rank(ents, i);
    var rest := LineFrom(ents, seats, r, j + 1);
    assert m == [LineMsg(i, j)] + rest;
    if Rank(ents, k) == r {
      assert m[0].client == i;
    } else {
      var next := InLine(ents, seats, r);
      assert next <= here - {i};
      SubsetSize(next, here - {i});
      LineFromComplete(ents, seats, r, j + 1, k);
      var p :| 0 <= p < |rest| && Rank(ents, rest[p].client) == Rank(ents, k);
      assert m[p + 1] == rest[p];
    }
  }

  /** The whole line reaches every waiting player's rank. */
  lemma TourneyLineComplete(ents: Entities, seats: Seats, k: int)
    requires EntitiesValid(ents)
    requires 0 <= k < |ents| && Waiting(ents, seats, k)
    ensures RankTold(ents, seats, TourneyLine(GameTourney, ents, seats), Rank(ents, k))
  {
    InLineBound(ents, seats, -1);
    LineFromComplete(ents, seats, -1, 1, k);
  }

  /** The seats CycleTourneyPlayers starts from: last round's winner if still a player. */
  function CycleSeats(ents: Entities, lastWinner: int): Seats {
    if lastWinner != -1 && IsPlayer(ents, lastWinner) then [lastWinner, -1] else [-1, -1]
  }

  /** The entities after CycleTourneyPlayers: seated players play, every other player spectates. */
  function Cycled(ents: Entities, seats: Seats): (r: Entities)
    ensures |r| == |ents|
  {
    seq(|ents|, i requires 0 <= i < |ents| =>
      if ents[i].Some? then Some(Spectate(ents[i].value, !Seated(seats, i))) else None)
  }

  /**
   * After CycleTourneyPlayers only the two seated players are in the game;
   * the last winner keeps the first seat, and nothing but spectating changes.
   */
  lemma CycleSeatsPlayers(ents: Entities, lastWinner: int)
    ensures var seats := FillSlots(ents, CycleSeats(ents, lastWinner));
      var r := Cycled(ents, seats);
      && (forall i :: 0 <= i < |ents| && ents[i].Some? ==>
            r[i].Some? && r[i].value == ents[i].value.(spectating := !Seated(seats, i)))
      && (forall i :: 0 <= i < |ents| && ents[i].None? ==> r[i].None?)
      && (lastWinner != -1 && IsPlayer(ents, lastWinner) ==> seats[0] == lastWinner)
      && (seats[0] != -1 ==> IsPlayer(ents, seats[0]))
      && (seats[1] != -1 ==> IsPlayer(ents, seats[1]) && seats[1] != seats[0])
  {
    FillSlotsSeats(ents, CycleSeats(ents, lastWinner));
  }
}
