/** The three roles of a PaxosLease node (PL/PLeaseProposer.cpp, PLeaseAcceptor.cpp, PLeaseLearner.cpp,
    PLeaseState.h, ReplicatedConfig.cpp): what each message and timer does to its state. */
module PLease {

  const MAX_LEASE_TIME: nat := 70000
  const MARGIN: nat := 500
  const WORD: nat := 0x1_0000_0000_0000_0000
  const NODES: nat := 256               // 2^WIDTH_NODEID
  const LAP: nat := 0x100_0000          // 2^(WIDTH_NODEID + WIDTH_RESTART_COUNTER)

  /** A message with the fields its type carries. The paxos id a node reports is its own id
      (PL/ReplicatedLog.cpp:80-83). */
  datatype Msg =
    | PrepareRequest(node: nat, ballot: nat, paxosID: nat)
    | PrepareRejected(node: nat, ballot: nat)
    | PreparePreviouslyAccepted(node: nat, ballot: nat, acceptedBallot: nat, owner: nat, duration: nat)
    | PrepareCurrentlyOpen(node: nat, ballot: nat)
    | ProposeRequest(node: nat, ballot: nat, owner: nat, duration: nat)
    | ProposeRejected(node: nat, ballot: nat)
    | ProposeAccepted(node: nat, ballot: nat)
    | LearnChosen(node: nat, owner: nat, duration: nat, localExpire: nat)
  {
    predicate IsRequest() { PrepareRequest? || ProposeRequest? }
    predicate IsPrepareResponse() { PrepareRejected? || PreparePreviouslyAccepted? || PrepareCurrentlyOpen? }
    predicate IsProposeResponse() { ProposeRejected? || ProposeAccepted? }
  }

  datatype Option<T> = None | Some(value: T)

  // ----- configuration

  datatype Config = Config(self: nat, numNodes: nat, restart: nat)
  {
    ghost predicate Valid() { self < numNodes <= NODES && restart < LAP / NODES }

    function MinMajority(): nat { numNodes / 2 + 1 }

    /** ceil(numNodes / 2) */
    function RejectLimit(): nat { (numNodes + 1) / 2 }

    /** <proposal count since restart> <restart counter> <node id>; the three fields do not overlap, so or-ing
        them is adding them. */
    function NextHighest(ballot: nat): (b: nat)
      requires Valid()
      ensures b > ballot && OwnerOf(b) == self
    {
      NextHighestFacts(ballot, restart, self);
      (ballot / LAP + 1) * LAP + restart * NODES + self
    }
  }

  function OwnerOf(ballot: nat): nat { ballot % NODES }

  lemma NextHighestFacts(ballot: nat, restart: nat, self: nat)
    requires self < NODES
    ensures (ballot / LAP + 1) * LAP + restart * NODES + self > ballot
    ensures ((ballot / LAP + 1) * LAP + restart * NODES + self) % NODES == self
  {
    assert ballot == ballot / LAP * LAP + ballot % LAP;
  }

  /** The restart counter can be read off a ballot. */
  lemma RestartOf(rounds: nat, restart: nat, self: nat)
    requires self < NODES && restart < LAP / NODES
    ensures (rounds * LAP + restart * NODES + self) % LAP == restart * NODES + self
  {
    assert 0 <= restart * NODES + self < LAP;
  }

  /** Ballots of different nodes, or of one node before and after a restart that was counted, never collide, and a
      node's ballots strictly increase. */
  lemma BallotDiscipline(c: Config, c': Config, seen: nat, seen': nat)
    requires c.Valid() && c'.Valid()
    ensures c.NextHighest(seen) > seen
    ensures c.self != c'.self ==> c.NextHighest(seen) != c'.NextHighest(seen')
    ensures c.NextHighest(c.NextHighest(seen)) > c.NextHighest(seen)
    ensures c.self == c'.self && c.restart != c'.restart ==> c.NextHighest(seen) != c'.NextHighest(seen')
    ensures seen < 0xFFFF_FFFF_FF00_0000 ==> c.NextHighest(seen) < 0x1_0000_0000_0000_0000
  {
    var b := c.NextHighest(seen);
    RestartOf(seen / LAP + 1, c.restart, c.self);
    RestartOf(seen' / LAP + 1, c'.restart, c'.self);
    assert c.restart * NODES + c.self < LAP;
    assert seen < 0xFFFF_FFFF_FF00_0000 ==> seen / LAP + 1 <= 0xFF_FFFF_FFFF;
  }

  // ----- acceptor

  datatype Acceptor = Acceptor(promised: nat, accepted: bool, acceptedBallot: nat, acceptedOwner: nat,
                               acceptedDuration: nat, acceptedExpire: nat)
  {
    function OnLeaseTimeout(): Acceptor { Acceptor(promised, false, 0, 0, 0, 0) }

    /** A lapsed acceptance is forgotten before a request is looked at. */
    function Refresh(now: nat): Acceptor { if accepted && acceptedExpire < now then OnLeaseTimeout() else this }

    function OnPrepareRequest(self: nat, ballot: nat, now: nat): (Acceptor, Msg) {
      var a := Refresh(now);
      if ballot < a.promised then (a, PrepareRejected(self, ballot))
      else
        (a.(promised := ballot),
         if !a.accepted then PrepareCurrentlyOpen(self, ballot)
         else PreparePreviouslyAccepted(self, ballot, a.acceptedBallot, a.acceptedOwner, a.acceptedDuration))
    }

    function OnProposeRequest(self: nat, ballot: nat, owner: nat, duration: nat, now: nat): (Acceptor, Msg) {
      var a := Refresh(now);
      if ballot < a.promised then (a, ProposeRejected(self, ballot))
      else (Acceptor(a.promised, true, ballot, owner, duration, duration + now), ProposeAccepted(self, ballot))
    }
  }

  const INIT_ACCEPTOR := Acceptor(0, false, 0, 0, 0, 0)

  // ----- learner

  datatype Learner = Learner(learned: bool, owner: nat, expire: nat, epoch: nat)
  {
    function OnLeaseTimeout(): Learner { Learner(false, 0, 0, epoch + 1) }

    function CheckLease(now: nat): Learner { if learned && expire < now then OnLeaseTimeout() else this }

    function OnLearnChosen(self: nat, msgOwner: nat, duration: nat, localExpire: nat, now: nat): Learner
    {
      var l := CheckLease(now);
      var e := Until(self, msgOwner, duration, localExpire, now);
      if e < now then l else l.(learned := true, owner := msgOwner, expire := e)
    }

    /** CheckLease, then: do I hold the lease? */
    predicate IsLeaseOwner(self: nat, now: nat) {
      var l := CheckLease(now);
      l.learned && l.owner == self
    }
  }

  /** When the learner of node `self` takes an announced lease to end; unsigned arithmetic wraps below zero. */
  function Until(self: nat, owner: nat, duration: nat, localExpire: nat, now: nat): nat {
    if owner == self then localExpire
    else if now + duration >= MARGIN then now + duration - MARGIN
    else now + duration + WORD - MARGIN
  }

  const INIT_LEARNER := Learner(false, 0, 0, 0)

  // ----- proposer

  datatype Proposer = Proposer(preparing: bool, proposing: bool, ballot: nat, highestReceived: nat, owner: nat,
                               duration: nat, expire: nat, highest: nat,
                               numReceived: nat, numAccepted: nat, numRejected: nat)
  {
    /** BroadcastMessage resets the counters. */
    function Reset(): Proposer { this.(numReceived := 0, numAccepted := 0, numRejected := 0) }

    function StartPreparing(c: Config): Proposer
      requires c.Valid()
    {
      var b := c.NextHighest(highest);
      this.(preparing := true, proposing := false, owner := c.self, highestReceived := 0, ballot := b, highest := b).Reset()
    }

    function StopAcquireLease(): Proposer { this.(preparing := false, proposing := false) }

    /** Count one answer to the current prepare. */
    function CountPrepare(m: Msg): Proposer
      requires m.IsPrepareResponse()
    {
      var p := this.(numReceived := numReceived + 1);
      if m.PrepareRejected? then p.(numRejected := numRejected + 1)
      else if m.PreparePreviouslyAccepted? && m.acceptedBallot >= highestReceived then
        p.(highestReceived := m.acceptedBallot, owner := m.owner)
      else p
    }

    predicate PrepareRefused(c: Config) { numRejected >= c.RejectLimit() }

    predicate PrepareWon(c: Config) { numReceived - numRejected >= c.MinMajority() }

    /** Proposing starts only for oneself; otherwise the round is left to time out. */
    function StartProposing(c: Config, now: nat): Proposer {
      var p := this.(preparing := false);
      if owner != c.self then p
      else p.(proposing := true, duration := MAX_LEASE_TIME, expire := now + MAX_LEASE_TIME).Reset()
    }

    function CountPropose(m: Msg): Proposer
      requires m.IsProposeResponse()
    {
      this.(numReceived := numReceived + 1, numAccepted := numAccepted + if m.ProposeAccepted? then 1 else 0)
    }

    predicate ProposeWon(c: Config, now: nat) { numAccepted >= c.MinMajority() && expire - now > MARGIN }

    function OnPrepareResponse(c: Config, m: Msg, now: nat): (Proposer, Option<Msg>)
      requires c.Valid() && m.IsPrepareResponse()
    {
      if !preparing || m.ballot != ballot then (this, None)
      else
        var p := CountPrepare(m);
        if p.PrepareRefused(c) then
          var p' := p.StartPreparing(c);
          (p', Some(PrepareRequest(c.self, p'.ballot, c.self)))
        else if p.PrepareWon(c) then
          var p' := p.StartProposing(c, now);
          (p', if p'.proposing then Some(ProposeRequest(c.self, p'.ballot, p'.owner, p'.duration)) else None)
        else (p, None)
    }

    function OnProposeResponse(c: Config, m: Msg, now: nat): (Proposer, Option<Msg>)
      requires c.Valid() && m.IsProposeResponse()
    {
      if expire < now || !proposing || m.ballot != ballot then (this, None)
      else
        var p := CountPropose(m);
        if p.ProposeWon(c, now) then
          (p.(proposing := false).Reset(), Some(LearnChosen(c.self, owner, expire - now, expire)))
        else if p.numReceived == c.numNodes then
          var p' := p.StartPreparing(c);
          (p', Some(PrepareRequest(c.self, p'.ballot, c.self)))
        else (p, None)
    }
  }

  const INIT_PROPOSER := Proposer(false, false, 0, 0, 0, 0, 0, 0, 0, 0, 0)
}
