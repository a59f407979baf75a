/** What a proposer makes of the answers to one round, in terms of the answers alone (PL/PLeaseProposer.cpp:116-188). */
module PLeaseRounds {
  import opened PLease

  /** A majority is more than half. */
  lemma MajorityIs(c: Config, k: int)
    ensures k >= c.MinMajority() <==> 2 * k > c.numNodes
  {
  }

  /** The limit of rejections is reached exactly when the other nodes are no majority. */
  lemma GivenUpExactly(c: Config, r: int)
    ensures r >= c.RejectLimit() <==> c.numNodes - r < c.MinMajority()
  {
  }

  // ----- answers to a prepare request

  ghost predicate PrepareAnswers(msgs: seq<Msg>, ballot: nat) {
    forall i :: 0 <= i < |msgs| ==> msgs[i].IsPrepareResponse() && msgs[i].ballot == ballot
  }

  ghost function Rejections(msgs: seq<Msg>): nat {
    if msgs == [] then 0 else Rejections(msgs[..|msgs| - 1]) + if msgs[|msgs| - 1].PrepareRejected? then 1 else 0
  }

  /** Too many nodes have refused for the rest to be a majority. */
  ghost predicate Hopeless(c: Config, msgs: seq<Msg>) { 2 * (c.numNodes - Rejections(msgs)) <= c.numNodes }

  /** A majority has promised. */
  ghost predicate Promising(c: Config, msgs: seq<Msg>) { 2 * (|msgs| - Rejections(msgs)) > c.numNodes }

  ghost predicate Reports(msgs: seq<Msg>, i: nat) { i < |msgs| && msgs[i].PreparePreviouslyAccepted? }

  /** The owner to propose: that of a highest acceptance reported, or the node itself if there is none. */
  ghost predicate OwnerToPropose(c: Config, msgs: seq<Msg>, owner: nat, highest: nat) {
    && (forall i: nat :: Reports(msgs, i) ==> msgs[i].acceptedBallot <= highest)
    && ((owner == c.self && highest == 0 && forall i: nat :: !Reports(msgs, i))
        || exists i: nat :: Reports(msgs, i) && msgs[i].acceptedBallot == highest && msgs[i].owner == owner)
  }

  /** The proposer after these answers, one after the other. */
  ghost function Heard(p: Proposer, c: Config, msgs: seq<Msg>, now: nat): Proposer
    requires c.Valid() && forall i :: 0 <= i < |msgs| ==> msgs[i].IsPrepareResponse()
  {
    if msgs == [] then p
    else Heard(p, c, msgs[..|msgs| - 1], now).OnPrepareResponse(c, msgs[|msgs| - 1], now).0
  }

  /** Just after StartPreparing. */
  ghost predicate Fresh(p: Proposer, c: Config) {
    && p.preparing && !p.proposing && p.ballot <= p.highest && p.owner == c.self && p.highestReceived == 0
    && p.numReceived == p.numAccepted == p.numRejected == 0
  }

  lemma StartIsFresh(p: Proposer, c: Config)
    requires c.Valid()
    ensures Fresh(p.StartPreparing(c), c) && p.StartPreparing(c).ballot > p.highest
  {
  }

  /** While the round is open the proposer counts. */
  lemma {:induction false} CountingPromises(p: Proposer, c: Config, msgs: seq<Msg>, now: nat)
    requires c.Valid() && Fresh(p, c) && PrepareAnswers(msgs, p.ballot) && !Hopeless(c, msgs) && !Promising(c, msgs)
    ensures var q := Heard(p, c, msgs, now);
      && q.preparing && !q.proposing && q.ballot == p.ballot && q.highest == p.highest
      && q.numReceived == |msgs| && q.numRejected == Rejections(msgs) && OwnerToPropose(c, msgs, q.owner, q.highestReceived)
  {
    if msgs != [] {
      var n := |msgs| - 1;
      var most, m := msgs[..n], msgs[n];
      CountingPromises(p, c, most, now);
      var q := Heard(p, c, most, now);
      GivenUpExactly(c, Rejections(msgs));
      MajorityIs(c, |msgs| - Rejections(msgs));
      CountsOwner(c, q, most, m, msgs);
    }
  }

  lemma CountsOwner(c: Config, q: Proposer, most: seq<Msg>, m: Msg, msgs: seq<Msg>)
    requires msgs == most + [m] && m.IsPrepareResponse() && OwnerToPropose(c, most, q.owner, q.highestReceived)
    ensures OwnerToPropose(c, msgs, q.CountPrepare(m).owner, q.CountPrepare(m).highestReceived)
  {
    var n := |most|;
    assert forall i: nat :: i < n ==> (Reports(msgs, i) <==> Reports(most, i)) && msgs[i] == most[i];
    assert Reports(msgs, n) <==> m.PreparePreviouslyAccepted?;
    assert msgs[n] == m;
    if i: nat :| Reports(most, i) && most[i].acceptedBallot == q.highestReceived && most[i].owner == q.owner {
      assert Reports(msgs, i);
    }
  }

  /** The answer that decides a round, or does not: the proposer asks again, with a higher ballot, exactly when a majority
      can no longer be reached, and otherwise goes on exactly when a majority has promised; it then proposes exactly if the
      lease would be its own. */
  lemma PrepareRound(p: Proposer, c: Config, msgs: seq<Msg>, before: nat, m: Msg, now: nat)
    requires c.Valid() && Fresh(p, c) && PrepareAnswers(msgs, p.ballot) && m.IsPrepareResponse() && m.ballot == p.ballot
    requires !Hopeless(c, msgs) && !Promising(c, msgs)
    ensures var (q, out) := Heard(p, c, msgs, before).OnPrepareResponse(c, m, now);
      var all := msgs + [m];
      if Hopeless(c, all) then
        Fresh(q, c) && q.ballot > p.ballot && out == Some(PrepareRequest(c.self, q.ballot, c.self))
      else if Promising(c, all) then
        && !q.preparing && (exists highest :: OwnerToPropose(c, all, q.owner, highest)) && q.ballot == p.ballot
        && (q.proposing <==> q.owner == c.self) && (q.proposing ==> q.expire == now + MAX_LEASE_TIME)
        && out == if q.proposing then Some(ProposeRequest(c.self, p.ballot, c.self, MAX_LEASE_TIME)) else None
      else q.preparing && q.ballot == p.ballot && out == None
  {
    var all := msgs + [m];
    assert all[..|msgs|] == msgs && all[|msgs|] == m;
    CountingPromises(p, c, msgs, before);
    var q := Heard(p, c, msgs, before);
    GivenUpExactly(c, Rejections(all));
    MajorityIs(c, c.numNodes - Rejections(all));
    MajorityIs(c, |all| - Rejections(all));
    CountsOwner(c, q, msgs, m, all);
    assert q.CountPrepare(m).numRejected == Rejections(all) && q.CountPrepare(m).numReceived == |all|;
  }

  // ----- answers to a propose request

  ghost predicate ProposeAnswers(msgs: seq<Msg>, ballot: nat) {
    forall i :: 0 <= i < |msgs| ==> msgs[i].IsProposeResponse() && msgs[i].ballot == ballot
  }

  ghost function Acceptances(msgs: seq<Msg>): nat {
    if msgs == [] then 0 else Acceptances(msgs[..|msgs| - 1]) + if msgs[|msgs| - 1].ProposeAccepted? then 1 else 0
  }

  /** A majority has accepted. */
  ghost predicate Accepted(c: Config, msgs: seq<Msg>) { 2 * Acceptances(msgs) > c.numNodes }

  /** The proposer after these answers, each at its time. */
  ghost function Answered(p: Proposer, c: Config, msgs: seq<Msg>, nows: seq<nat>): Proposer
    requires c.Valid() && |nows| == |msgs| && forall i :: 0 <= i < |msgs| ==> msgs[i].IsProposeResponse()
  {
    if msgs == [] then p
    else
      var n := |msgs| - 1;
      Answered(p, c, msgs[..n], nows[..n]).OnProposeResponse(c, msgs[n], nows[n]).0
  }

  /** Just after StartProposing. */
  ghost predicate Offering(p: Proposer, c: Config) {
    p.proposing && p.ballot <= p.highest && p.owner == c.self && p.numReceived == p.numAccepted == p.numRejected == 0
  }

  /** At time `now` these answers give p the lease. */
  ghost predicate Elected(p: Proposer, c: Config, msgs: seq<Msg>, now: nat) { Accepted(c, msgs) && now + MARGIN < p.expire }

  /** No answer so far came too late, gave p the lease, or was the last. */
  ghost predicate StillOpen(p: Proposer, c: Config, msgs: seq<Msg>, nows: seq<nat>)
    requires |nows| == |msgs|
  {
    msgs == [] || (
      var n := |msgs| - 1;
      nows[n] <= p.expire && |msgs| < c.numNodes && !Elected(p, c, msgs, nows[n]) && StillOpen(p, c, msgs[..n], nows[..n]))
  }

  lemma {:induction false} CountingVotes(p: Proposer, c: Config, msgs: seq<Msg>, nows: seq<nat>)
    requires c.Valid() && Offering(p, c) && ProposeAnswers(msgs, p.ballot) && |nows| == |msgs| && StillOpen(p, c, msgs, nows)
    ensures Answered(p, c, msgs, nows) == p.(numReceived := |msgs|, numAccepted := Acceptances(msgs))
  {
    if msgs != [] {
      var n := |msgs| - 1;
      CountingVotes(p, c, msgs[..n], nows[..n]);
      MajorityIs(c, Acceptances(msgs));
    }
  }

  /** What an answer makes of a proposer: after the end of the lease nothing; elected, it announces; not elected though all
      have answered, it asks again with a higher ballot; otherwise it waits on. */
  ghost predicate VoteOutcome(q: Proposer, c: Config, now: nat, elected: bool, last: bool, r: Proposer, out: Option<Msg>) {
    if now > q.expire then r == q && out == None
    else if elected then
      r.preparing == q.preparing && !r.proposing && out == Some(LearnChosen(c.self, c.self, q.expire - now, q.expire))
    else if last then Fresh(r, c) && r.ballot > q.ballot && out == Some(PrepareRequest(c.self, r.ballot, c.self))
    else r.proposing && r.ballot == q.ballot && out == None
  }

  lemma LastVote(q: Proposer, c: Config, m: Msg, now: nat, elected: bool, last: bool)
    requires c.Valid() && q.proposing && q.ballot <= q.highest && q.owner == c.self && m.IsProposeResponse() && m.ballot == q.ballot
    requires elected <==> q.numAccepted + (if m.ProposeAccepted? then 1 else 0) >= c.MinMajority() && now + MARGIN < q.expire
    requires last <==> q.numReceived + 1 == c.numNodes
    ensures var (r, out) := q.OnProposeResponse(c, m, now); VoteOutcome(q, c, now, elected, last, r, out)
  {
  }

  lemma OneMoreVote(msgs: seq<Msg>, m: Msg)
    ensures |msgs + [m]| == |msgs| + 1 && Acceptances(msgs + [m]) == Acceptances(msgs) + if m.ProposeAccepted? then 1 else 0
  {
    var all := msgs + [m];
    assert all[..|msgs|] == msgs && all[|msgs|] == m;
  }

  /** The lease is announced exactly when a majority has accepted with more than the margin left; otherwise the proposer asks
      again exactly when all nodes have answered. */
  lemma ProposeRound(p: Proposer, c: Config, msgs: seq<Msg>, nows: seq<nat>, m: Msg, now: nat)
    requires c.Valid() && Offering(p, c) && ProposeAnswers(msgs, p.ballot) && m.IsProposeResponse() && m.ballot == p.ballot
    requires |nows| == |msgs| < c.numNodes && StillOpen(p, c, msgs, nows)
    ensures var q := Answered(p, c, msgs, nows);
      && q.ballot == p.ballot && q.expire == p.expire
      && var (r, out) := q.OnProposeResponse(c, m, now);
         VoteOutcome(q, c, now, Elected(p, c, msgs + [m], now), |msgs| + 1 == c.numNodes, r, out)
  {
    CountingVotes(p, c, msgs, nows);
    var q := Answered(p, c, msgs, nows);
    OneMoreVote(msgs, m);
    MajorityIs(c, Acceptances(msgs + [m]));
    LastVote(q, c, m, now, Elected(p, c, msgs + [m], now), |msgs| + 1 == c.numNodes);
  }
}
