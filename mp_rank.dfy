/**
 * The ranking UpdatePlayerRanks builds: an insertion sort of the eligible
 * clients, by frag count (by team score and team outside a team, in TDM).
 */
module MpRank {
  import opened Wrappers
  import opened MpTypes

  /** A client UpdatePlayerRanks puts in the list. */
  predicate Rankable(r: MatchView, i: int)
  {
    && IsPlayer(r.ents, i) && i < |r.ps|
    && CanPlay(r.ents[i].value, r.ps[i])
    && (r.gt == GameTourney ==> Seated(r.seats, i))
    && !(r.gt == GameLastMan && r.ps[i].fragCount == LASTMAN_NOLIVES)
  }

  /** The insertion test: client `i` goes in front of already ranked client `j`. */
  predicate Beats(r: MatchView, i: int, j: int)
    requires IsPlayer(r.ents, i) && IsPlayer(r.ents, j) && i < |r.ps| && j < |r.ps|
  {
    if r.gt == GameTDM then
      var pi, pj := r.ents[i].value, r.ents[j].value;
      if pi.team != pj.team then
        r.ps[i].teamFragCount > r.ps[j].teamFragCount
        || (r.ps[i].teamFragCount == r.ps[j].teamFragCount && pi.team < pj.team)
      else
        r.ps[i].fragCount > r.ps[j].fragCount
    else
      r.ps[i].fragCount > r.ps[j].fragCount
  }

  /** Every entry of `list` is a rankable client. */
  ghost predicate AllRankable(r: MatchView, list: seq<int>) {
    forall k :: 0 <= k < |list| ==> Rankable(r, list[k])
  }

  /** The slot the inner loop of UpdatePlayerRanks stops at: the first beaten entry, or the end. */
  function InsertPos(r: MatchView, list: seq<int>, i: int): (p: nat)
    requires Rankable(r, i) && AllRankable(r, list)
    ensures p <= |list|
    ensures forall k :: 0 <= k < p ==> !Beats(r, i, list[k])
    ensures p < |list| ==> Beats(r, i, list[p])
  {
    if |list| == 0 then 0
    else if Beats(r, i, list[0]) then 0
    else 1 + InsertPos(r, list[1..], i)
  }

  /** A slot before which nothing is beaten and at which something is (or the end) is InsertPos. */
  lemma {:induction false} InsertPosFirst(r: MatchView, list: seq<int>, i: int, j: int)
    requires Rankable(r, i) && AllRankable(r, list)
    requires 0 <= j <= |list|
    requires forall k :: 0 <= k < j ==> !Beats(r, i, list[k])
    requires j < |list| ==> Beats(r, i, list[j])
    ensures j == InsertPos(r, list, i)
  {
    if |list| > 0 && j > 0 {
      assert !Beats(r, i, list[0]);
      assert AllRankable(r, list[1..]) by {
        forall k | 0 <= k < |list| - 1 ensures Rankable(r, list[1..][k]) {
          assert list[1..][k] == list[k + 1];
        }
      }
      forall k | 0 <= k < j - 1 ensures !Beats(r, i, list[1..][k]) {
        assert list[1..][k] == list[k + 1];
      }
      InsertPosFirst(r, list[1..], i, j - 1);
    }
  }

  /** The list after client `i` is shifted in at its slot. */
  function Insert(r: MatchView, list: seq<int>, i: int): seq<int>
    requires Rankable(r, i) && AllRankable(r, list)
  {
    var p := InsertPos(r, list, i);
    list[..p] + [i] + list[p..]
  }

  /** The ranking of clients 0 .. n-1, in the order UpdatePlayerRanks visits them. */
  function RankPrefix(r: MatchView, n: nat): (list: seq<int>)
    requires n <= |r.ents|
    ensures AllRankable(r, list)
  {
    if n == 0 then []
    else
      var prev := RankPrefix(r, n - 1);
      if Rankable(r, n - 1) then
        var p := InsertPos(r, prev, n - 1);
        var out := prev[..p] + [n - 1] + prev[p..];
        assert AllRankable(r, out) by {
          forall k | 0 <= k < |out| ensures Rankable(r, out[k]) {
            if k < p { } else if k == p { } else { assert out[k] == prev[k - 1]; }
          }
        }
        out
      else prev
  }

  /** The complete ranking over all clients. */
  function Ranking(r: MatchView): seq<int> {
    RankPrefix(r, |r.ents|)
  }

  ghost predicate NoDuplicates(list: seq<int>) {
    forall a, b :: 0 <= a < b < |list| ==> list[a] != list[b]
  }

  /** Outside TDM: non-increasing frag counts, equal counts in ascending client order. */
  ghost predicate SortedByFrags(r: MatchView, list: seq<int>)
    requires AllRankable(r, list)
  {
    forall a, b :: 0 <= a < b < |list| ==>
      r.ps[list[a]].fragCount > r.ps[list[b]].fragCount
      || (r.ps[list[a]].fragCount == r.ps[list[b]].fragCount && list[a] < list[b])
  }

  /** Membership after an insertion: the old entries plus `i`. */
  lemma InsertMembers(r: MatchView, list: seq<int>, i: int)
    requires Rankable(r, i) && AllRankable(r, list)
    ensures |Insert(r, list, i)| == |list| + 1
    ensures forall x :: x in Insert(r, list, i) <==> x in list || x == i
  {
    var p := InsertPos(r, list, i);
    assert list == list[..p] + list[p..];
  }

  /** The ranking holds exactly the rankable clients, once each. */
  lemma {:induction false} RankPrefixMembers(r: MatchView, n: nat)
    requires n <= |r.ents|
    ensures forall x :: x in RankPrefix(r, n) <==> 0 <= x < n && Rankable(r, x)
    ensures NoDuplicates(RankPrefix(r, n))
    ensures |RankPrefix(r, n)| <= n
  {
    if n > 0 {
      RankPrefixMembers(r, n - 1);
      var prev := RankPrefix(r, n - 1);
      if Rankable(r, n - 1) {
        InsertMembers(r, prev, n - 1);
        var p := InsertPos(r, prev, n - 1);
        var list := prev[..p] + [n - 1] + prev[p..];
        assert RankPrefix(r, n) == list;
        InsertNoDuplicates(prev, p, n - 1);
      }
    }
  }

  /** Splicing a new value into a list without duplicates keeps it without duplicates. */
  lemma InsertNoDuplicates(list: seq<int>, p: nat, x: int)
    requires p <= |list| && NoDuplicates(list) && x !in list
    ensures NoDuplicates(list[..p] + [x] + list[p..])
  {
    var out := list[..p] + [x] + list[p..];
    forall a, b | 0 <= a < b < |out| ensures out[a] != out[b] {
      if b < p {
      } else if b == p {
        assert out[a] in list;
      } else if a < p {
        assert out[b] == list[b - 1];
      } else if a == p {
        assert out[b] == list[b - 1];
        assert out[b] in list;
      } else {
        assert out[a] == list[a - 1] && out[b] == list[b - 1];
      }
    }
  }

  /** Inserting a client numbered above all ranked ones keeps the frag order. */
  lemma InsertKeepsSorted(r: MatchView, list: seq<int>, i: int)
    requires r.gt != GameTDM
    requires Rankable(r, i) && AllRankable(r, list)
    requires SortedByFrags(r, list)
    requires forall k :: 0 <= k < |list| ==> list[k] < i
    ensures AllRankable(r, Insert(r, list, i))
    ensures SortedByFrags(r, Insert(r, list, i))
  {
    var p := InsertPos(r, list, i);
    var out := list[..p] + [i] + list[p..];
    assert forall k :: 0 <= k < p ==> out[k] == list[k];
    assert out[p] == i;
    assert forall k :: p < k < |out| ==> out[k] == list[k - 1];
    assert AllRankable(r, out) by {
      forall k | 0 <= k < |out| ensures Rankable(r, out[k]) {
        if k < p { } else if k == p { } else { assert out[k] == list[k - 1]; }
      }
    }
    forall a, b | 0 <= a < b < |out|
      ensures r.ps[out[a]].fragCount > r.ps[out[b]].fragCount
              || (r.ps[out[a]].fragCount == r.ps[out[b]].fragCount && out[a] < out[b])
    {
      if b < p {
      } else if b == p {
        assert !Beats(r, i, list[a]);
      } else if a < p {
        assert out[b] == list[b - 1];
      } else if a == p {
        assert Beats(r, i, list[p]);
        assert out[b] == list[b - 1];
        if b - 1 > p {
          assert r.ps[list[p]].fragCount >= r.ps[list[b - 1]].fragCount;
        }
      } else {
        assert out[a] == list[a - 1] && out[b] == list[b - 1];
      }
    }
  }

  /** Outside TDM the ranking is sorted by frags, ties in ascending client order. */
  lemma {:induction false} RankPrefixSorted(r: MatchView, n: nat)
    requires r.gt != GameTDM
    requires n <= |r.ents|
    ensures SortedByFrags(r, RankPrefix(r, n))
  {
    if n > 0 {
      RankPrefixSorted(r, n - 1);
      if Rankable(r, n - 1) {
        RankPrefixMembers(r, n - 1);
        var prev := RankPrefix(r, n - 1);
        forall k | 0 <= k < |prev| ensures prev[k] < n - 1 {
          assert prev[k] in prev;
        }
        InsertKeepsSorted(r, prev, n - 1);
      }
    }
  }
}
