/**
 * The vote protocol: who may vote once ServerStartVote has marked the
 * clients, what CastVote counts, and CheckVote's decision.
 */
module MpVote {
  import opened Wrappers
  import opened MpTypes

  /** How many of clients 0 .. n-1 hold a player whose vote is `v`. */
  function CountVotes(ents: Entities, ps: seq<PlayerState>, n: nat, v: PlayerVote): nat
    requires n <= |ents| && n <= |ps|
  {
    if n == 0 then 0
    else CountVotes(ents, ps, n - 1, v) + (if ents[n - 1].Some? && ps[n - 1].vote == v then 1 else 0)
  }

  /** CheckVote's numVoters: players among clients 0 .. n-1 with a vote other than NONE. */
  function CountVoters(ents: Entities, ps: seq<PlayerState>, n: nat): nat
    requires n <= |ents| && n <= |ps|
  {
    if n == 0 then 0
    else CountVoters(ents, ps, n - 1) + (if ents[n - 1].Some? && ps[n - 1].vote != PlayerVoteNone then 1 else 0)
  }

  /** The vote marks ServerStartVote leaves: YES for the caller, WAIT for other players, NONE elsewhere. */
  function StartMarks(ents: Entities, ps: seq<PlayerState>, caller: int): (r: seq<PlayerState>)
    requires |ents| <= |ps|
    ensures |r| == |ps|
  {
    seq(|ps|, i requires 0 <= i < |ps| =>
      if i < |ents| then
        ps[i].(vote := if ents[i].Some? then (if i == caller then PlayerVoteYes else PlayerVoteWait) else PlayerVoteNone)
      else ps[i])
  }

  /** The tallies equal the marks on the table. */
  ghost predicate TallyAgrees(ents: Entities, ps: seq<PlayerState>, yes: int, no: int)
    requires |ents| <= |ps|
  {
    yes == CountVotes(ents, ps, |ents|, PlayerVoteYes) && no == CountVotes(ents, ps, |ents|, PlayerVoteNo)
  }

  /** Counting is blind to the slots past n. */
  lemma {:induction false} CountVotesPrefix(ents: Entities, ps: seq<PlayerState>, qs: seq<PlayerState>, n: nat, v: PlayerVote)
    requires n <= |ents| && n <= |ps| && n <= |qs|
    requires forall i :: 0 <= i < n ==> ps[i].vote == qs[i].vote
    ensures CountVotes(ents, ps, n, v) == CountVotes(ents, qs, n, v)
  {
    if n > 0 {
      CountVotesPrefix(ents, ps, qs, n - 1, v);
    }
  }

  /** Changing one present client's vote moves the counts of the old and new marks by one. */
  lemma {:induction false} CountVotesChange(ents: Entities, ps: seq<PlayerState>, c: int, w: PlayerVote, n: nat, v: PlayerVote)
    requires n <= |ents| && n <= |ps| && 0 <= c < |ps| && IsPlayer(ents, c)
    ensures var qs := ps[c := ps[c].(vote := w)];
      CountVotes(ents, qs, n, v)
      == CountVotes(ents, ps, n, v)
         + (if c < n && w == v then 1 else 0) - (if c < n && ps[c].vote == v then 1 else 0)
  {
    if n > 0 {
      CountVotesChange(ents, ps, c, w, n - 1, v);
    }
  }

  /** Among clients 0 .. n-1, only the caller (if a player) votes YES after the marks; nobody votes NO. */
  lemma {:induction false} StartMarksCounts(ents: Entities, ps: seq<PlayerState>, caller: int, n: nat)
    requires n <= |ents| <= |ps|
    ensures CountVotes(ents, StartMarks(ents, ps, caller), n, PlayerVoteYes)
            == (if 0 <= caller < n && ents[caller].Some? then 1 else 0)
    ensures CountVotes(ents, StartMarks(ents, ps, caller), n, PlayerVoteNo) == 0
  {
    if n > 0 {
      StartMarksCounts(ents, ps, caller, n - 1);
    }
  }

  /**
   * A vote called by a player starts with tallies that match the marks:
   * yesVotes = 1 for the caller and noVotes = 0.
   */
  lemma StartVoteTallies(ents: Entities, ps: seq<PlayerState>, caller: int)
    requires |ents| <= |ps| && IsPlayer(ents, caller)
    ensures TallyAgrees(ents, StartMarks(ents, ps, caller), 1, 0)
  {
    StartMarksCounts(ents, ps, caller, |ents|);
  }

  /** An accepted ballot keeps the tallies matching the marks: each present client is counted once. */
  lemma CastKeepsTally(ents: Entities, ps: seq<PlayerState>, yes: int, no: int, c: int, castYes: bool)
    requires |ents| <= |ps| && IsPlayer(ents, c) && ps[c].vote == PlayerVoteWait
    requires TallyAgrees(ents, ps, yes, no)
    ensures var w := if castYes then PlayerVoteYes else PlayerVoteNo;
      TallyAgrees(ents, ps[c := ps[c].(vote := w)],
                  if castYes then yes + 1 else yes, if castYes then no else no + 1)
  {
    var w := if castYes then PlayerVoteYes else PlayerVoteNo;
    CountVotesChange(ents, ps, c, w, |ents|, PlayerVoteYes);
    CountVotesChange(ents, ps, c, w, |ents|, PlayerVoteNo);
  }

  /** Voters are the players marked YES, NO or WAIT. */
  lemma {:induction false} VotersSplit(ents: Entities, ps: seq<PlayerState>, n: nat)
    requires n <= |ents| && n <= |ps|
    ensures CountVoters(ents, ps, n)
         == CountVotes(ents, ps, n, PlayerVoteYes) + CountVotes(ents, ps, n, PlayerVoteNo)
            + CountVotes(ents, ps, n, PlayerVoteWait)
  {
    if n > 0 {
      VotersSplit(ents, ps, n - 1);
    }
  }

  /** What one CheckVote call does. */
  datatype VoteStep =
    | NoVote          // nothing in progress
    | WaitExec        // passed, waiting for the execution time
    | Execute         // run the passed vote and clear it
    | Abort           // nobody can vote: clear it
    | Pass            // majority yes: schedule the execution
    | Fail            // timed out or half said no: clear it
    | Open            // keep counting

  /**
   * CheckVote's decision. The tallies are compared as exact fractions:
   * yes/voters > 1/2 and no/voters >= 1/2.
   */
  function CheckVoteStep(vote: VoteKind, execTime: int, now: int, timeOut: int, yes: int, no: int, voters: nat): VoteStep
  {
    if vote == VoteNone then NoVote
    else if execTime != 0 then (if now > execTime then Execute else WaitExec)
    else if voters == 0 then Abort
    else if 2 * yes > voters then Pass
    else if now > timeOut || 2 * no >= voters then Fail
    else Open
  }

  /**
   * The outcomes of one CheckVote: nothing without a vote; a passed vote
   * waits for its execution time and then runs; with nothing scheduled it
   * is aborted when nobody can vote, passes iff more than half the voters
   * said yes, otherwise fails iff it timed out or at least half said no,
   * and stays open only while no rule applies.
   */
  lemma CheckVoteOutcomes(vote: VoteKind, execTime: int, now: int, timeOut: int, yes: int, no: int, voters: nat)
    ensures var s := CheckVoteStep(vote, execTime, now, timeOut, yes, no, voters);
      && (s == NoVote <==> vote == VoteNone)
      && (s == Execute <==> vote != VoteNone && execTime != 0 && now > execTime)
      && (s == WaitExec <==> vote != VoteNone && execTime != 0 && now <= execTime)
      && (s == Abort <==> vote != VoteNone && execTime == 0 && voters == 0)
      && (vote != VoteNone && execTime == 0 && voters > 0 ==>
            && (s == Pass <==> yes * 2 > voters)
            && (s == Fail <==> yes * 2 <= voters && (now > timeOut || no * 2 >= voters))
            && (s == Open <==> yes * 2 <= voters && now <= timeOut && no * 2 < voters))
  {
  }

  /** The status ClientUpdateVote announces. */
  datatype VoteResult = VoteUpdated | VoteFailed | VotePassed | VoteAborted | VoteReset

  /** The chat line ClientUpdateVote adds for a status, as a string table key: none for an update or a reset. */
  function ResultLine(status: VoteResult): (line: Option<string>)
    ensures line.Some? <==> status == VoteFailed || status == VotePassed || status == VoteAborted
  {
    match status
    case VoteFailed => Some("#str_04278")
    case VotePassed => Some("#str_04277")
    case VoteAborted => Some("#str_04276")
    case _ => None
  }

  /**
   * The vote in progress after ClientUpdateVote: none stays none; a client
   * drops its vote on a failure, a reset or an abort; the server never
   * changes it here.
   */
  function VoteAfterUpdate(vote: VoteKind, status: VoteResult, isClient: bool): (r: VoteKind)
    ensures r == VoteNone <==>
      vote == VoteNone || (isClient && (status == VoteFailed || status == VoteReset || status == VoteAborted))
    ensures r != VoteNone ==> r == vote
  {
    if vote != VoteNone && isClient && (status == VoteFailed || status == VoteReset || status == VoteAborted)
    then VoteNone else vote
  }
}
