/** The roles as the objects that change in place, and a node that dispatches each message to one of them and passes the
    learner's news on to the proposer (PL/PaxosLease.cpp:31-53, 105-117). Every method is proved against the role functions
    of PLease; DeliverIsRead and LearnIsSteps show that what OnRead does to a node is what steps of the relation do to it. */
module PLeaseRoles {
  import opened PLease
  import opened PLeaseSystem

  class PLeaseProposer {
    var preparing: bool
    var proposing: bool
    var proposalID: nat
    var highestReceivedProposalID: nat
    var leaseOwner: nat
    var duration: nat
    var expireTime: nat
    var highestProposalID: nat
    var numReceived: nat
    var numAccepted: nat
    var numRejected: nat

    function State(): Proposer
      reads this
    {
      Proposer(preparing, proposing, proposalID, highestReceivedProposalID, leaseOwner, duration, expireTime,
               highestProposalID, numReceived, numAccepted, numRejected)
    }

    constructor ()
      ensures State() == INIT_PROPOSER
    {
      preparing, proposing := false, false;
      proposalID, highestReceivedProposalID, leaseOwner, duration, expireTime := 0, 0, 0, 0, 0;
      highestProposalID := 0;
      numReceived, numAccepted, numRejected := 0, 0, 0;
    }

    method BroadcastMessage()
      modifies this
      ensures State() == old(State()).Reset()
    {
      numReceived := 0;
      numAccepted := 0;
      numRejected := 0;
    }

    method StartPreparing(c: Config) returns (msg: Msg)
      requires c.Valid()
      modifies this
      ensures State() == old(State()).StartPreparing(c)
      ensures msg == PrepareRequest(c.self, State().ballot, c.self)
      ensures proposalID > old(highestProposalID) && OwnerOf(proposalID) == c.self
    {
      proposing := false;
      preparing := true;
      leaseOwner := c.self;
      highestReceivedProposalID := 0;
      proposalID := c.NextHighest(highestProposalID);
      if proposalID > highestProposalID {
        highestProposalID := proposalID;
      }
      msg := PrepareRequest(c.self, proposalID, c.self);
      BroadcastMessage();
    }

    method StartAcquireLease(c: Config) returns (out: Option<Msg>)
      requires c.Valid()
      modifies this
      ensures preparing || proposing
      ensures old(preparing ==> !proposing) ==> (preparing ==> !proposing)
      ensures State() == if old(preparing || proposing) then old(State()) else old(State()).StartPreparing(c)
      ensures out.None? <==> old(preparing || proposing)
      ensures out.Some? ==> out.value == PrepareRequest(c.self, State().ballot, c.self)
    {
      out := None;
      if !(preparing || proposing) {
        var msg := StartPreparing(c);
        out := Some(msg);
      }
    }

    method StopAcquireLease()
      modifies this
      ensures State() == old(State()).StopAcquireLease() && !preparing && !proposing
    {
      preparing := false;
      proposing := false;
    }

    method StartProposing(c: Config, now: nat) returns (out: Option<Msg>)
      modifies this
      requires !proposing
      ensures State() == old(State()).StartProposing(c, now)
      ensures out == if State().proposing then Some(ProposeRequest(c.self, State().ballot, State().owner, State().duration)) else None
    {
      preparing := false;
      if leaseOwner != c.self {
        return None;
      }
      proposing := true;
      duration := MAX_LEASE_TIME;
      expireTime := now + duration;
      out := Some(ProposeRequest(c.self, proposalID, leaseOwner, duration));
      BroadcastMessage();
    }

    method OnPrepareResponse(c: Config, msg: Msg, now: nat) returns (out: Option<Msg>)
      requires c.Valid() && msg.IsPrepareResponse()
      requires preparing ==> !proposing
      modifies this
      ensures (State(), out) == old(State()).OnPrepareResponse(c, msg, now)
      ensures preparing ==> !proposing
      ensures out.Some? && out.value.PrepareRequest? <==>
                old(preparing) && msg.ballot == old(proposalID) &&
                2 * (c.numNodes - (old(numRejected) + if msg.PrepareRejected? then 1 else 0)) <= c.numNodes
      ensures out.Some? && out.value.PrepareRequest? ==> out.value.ballot == proposalID > old(highestProposalID) && numReceived == 0
    {
      if !preparing || msg.ballot != proposalID {
        return None;
      }
      numReceived := numReceived + 1;
      if msg.PrepareRejected? {
        numRejected := numRejected + 1;
      } else if msg.PreparePreviouslyAccepted? && msg.acceptedBallot >= highestReceivedProposalID {
        highestReceivedProposalID := msg.acceptedBallot;
        leaseOwner := msg.owner;
      }
      if numRejected >= c.RejectLimit() {
        var m := StartPreparing(c);
        return Some(m);
      }
      out := None;
      if numReceived - numRejected >= c.MinMajority() {
        out := StartProposing(c, now);
      }
    }

    method OnProposeResponse(c: Config, msg: Msg, now: nat) returns (out: Option<Msg>)
      requires c.Valid() && msg.IsProposeResponse()
      requires preparing ==> !proposing
      modifies this
      ensures (State(), out) == old(State()).OnProposeResponse(c, msg, now)
      ensures preparing ==> !proposing
      ensures out.Some? && out.value.LearnChosen? <==>
                old(proposing) && msg.ballot == old(proposalID) && now + MARGIN < old(expireTime) &&
                2 * (old(numAccepted) + if msg.ProposeAccepted? then 1 else 0) > c.numNodes
      ensures out.Some? && out.value.LearnChosen? ==> out.value.localExpire == now + out.value.duration == old(expireTime)
    {
      if expireTime < now || !proposing || msg.ballot != proposalID {
        return None;
      }
      numReceived := numReceived + 1;
      if msg.ProposeAccepted? {
        numAccepted := numAccepted + 1;
      }
      if numAccepted >= c.MinMajority() && expireTime - now > MARGIN {
        proposing := false;
        out := Some(LearnChosen(c.self, leaseOwner, expireTime - now, expireTime));
        BroadcastMessage();
        return;
      }
      out := None;
      if numReceived == c.numNodes {
        var m := StartPreparing(c);
        out := Some(m);
      }
    }
  }

  class PLeaseAcceptor {
    var promisedProposalID: nat
    var accepted: bool
    var acceptedProposalID: nat
    var acceptedLeaseOwner: nat
    var acceptedDuration: nat
    var acceptedExpireTime: nat

    function State(): Acceptor
      reads this
    {
      Acceptor(promisedProposalID, accepted, acceptedProposalID, acceptedLeaseOwner, acceptedDuration, acceptedExpireTime)
    }

    constructor ()
      ensures State() == INIT_ACCEPTOR
    {
      promisedProposalID := 0;
      accepted := false;
      acceptedProposalID, acceptedLeaseOwner, acceptedDuration, acceptedExpireTime := 0, 0, 0, 0;
    }

    method OnLeaseTimeout()
      modifies this
      ensures State() == old(State()).OnLeaseTimeout() && promisedProposalID == old(promisedProposalID)
    {
      accepted := false;
      acceptedProposalID := 0;
      acceptedLeaseOwner := 0;
      acceptedDuration := 0;
      acceptedExpireTime := 0;
    }

    method OnPrepareRequest(self: nat, ballot: nat, now: nat) returns (reply: Msg)
      modifies this
      ensures (State(), reply) == old(State()).OnPrepareRequest(self, ballot, now)
      ensures promisedProposalID == if ballot < old(promisedProposalID) then old(promisedProposalID) else ballot
      ensures accepted <==> old(accepted) && old(acceptedExpireTime) >= now
      ensures reply == if ballot < old(promisedProposalID) then PrepareRejected(self, ballot)
                       else if old(accepted) && old(acceptedExpireTime) >= now then
                         PreparePreviouslyAccepted(self, ballot, old(acceptedProposalID), old(acceptedLeaseOwner), old(acceptedDuration))
                       else PrepareCurrentlyOpen(self, ballot)
    {
      if accepted && acceptedExpireTime < now {
        OnLeaseTimeout();
      }
      if ballot < promisedProposalID {
        reply := PrepareRejected(self, ballot);
      } else {
        promisedProposalID := ballot;
        if !accepted {
          reply := PrepareCurrentlyOpen(self, ballot);
        } else {
          reply := PreparePreviouslyAccepted(self, ballot, acceptedProposalID, acceptedLeaseOwner, acceptedDuration);
        }
      }
    }

    method OnProposeRequest(self: nat, ballot: nat, owner: nat, duration: nat, now: nat) returns (reply: Msg)
      modifies this
      ensures (State(), reply) == old(State()).OnProposeRequest(self, ballot, owner, duration, now)
      ensures promisedProposalID == old(promisedProposalID)
      ensures reply == if ballot >= promisedProposalID then ProposeAccepted(self, ballot) else ProposeRejected(self, ballot)
      ensures ballot >= promisedProposalID ==>
                accepted && acceptedProposalID == ballot && acceptedLeaseOwner == owner && acceptedDuration == duration &&
                acceptedExpireTime == now + duration
      ensures ballot < promisedProposalID ==> (accepted <==> old(accepted) && old(acceptedExpireTime) >= now)
    {
      if accepted && acceptedExpireTime < now {
        OnLeaseTimeout();
      }
      if ballot < promisedProposalID {
        reply := ProposeRejected(self, ballot);
      } else {
        accepted := true;
        acceptedProposalID := ballot;
        acceptedLeaseOwner := owner;
        acceptedDuration := duration;
        acceptedExpireTime := acceptedDuration + now;
        reply := ProposeAccepted(self, ballot);
      }
    }
  }

  class PLeaseLearner {
    var learned: bool
    var leaseOwner: nat
    var expireTime: nat
    var leaseEpoch: nat

    function State(): Learner
      reads this
    {
      Learner(learned, leaseOwner, expireTime, leaseEpoch)
    }

    constructor ()
      ensures State() == INIT_LEARNER
    {
      learned, leaseOwner, expireTime, leaseEpoch := false, 0, 0, 0;
    }

    method OnLeaseTimeout()
      modifies this
      ensures State() == old(State()).OnLeaseTimeout()
    {
      learned := false;
      leaseOwner := 0;
      expireTime := 0;
      leaseEpoch := leaseEpoch + 1;
    }

    method OnLearnChosen(self: nat, owner: nat, duration: nat, localExpire: nat, now: nat)
      modifies this
      ensures State() == old(State()).OnLearnChosen(self, owner, duration, localExpire, now)
      ensures owner == self && localExpire >= now ==> learned && leaseOwner == self && expireTime == localExpire
      ensures owner != self && duration >= MARGIN ==> learned && leaseOwner == owner && expireTime + MARGIN == now + duration
      ensures owner != self && now + duration < MARGIN ==> learned && leaseOwner == owner && expireTime + MARGIN == now + duration + WORD
      ensures (owner == self && localExpire < now) || (owner != self && duration < MARGIN <= now + duration) ==>
                State() == old(State()).CheckLease(now)
    {
      if learned && expireTime < now {
        OnLeaseTimeout();
      }
      var until := localExpire;
      if owner != self {
        until := if now + duration >= MARGIN then now + duration - MARGIN else now + duration + WORD - MARGIN;
      }
      if until < now {
        return;
      }
      learned := true;
      leaseOwner := owner;
      expireTime := until;
    }

    method CheckLease(now: nat)
      modifies this
      ensures State() == old(State()).CheckLease(now)
      ensures learned <==> old(learned) && old(expireTime) >= now
      ensures leaseEpoch == old(leaseEpoch) + if old(learned) && old(expireTime) < now then 1 else 0
    {
      if learned && expireTime < now {
        OnLeaseTimeout();
      }
    }

    method IsLeaseOwner(self: nat, now: nat) returns (r: bool)
      modifies this
      ensures r <==> old(State()).IsLeaseOwner(self, now)
      ensures State() == old(State()).CheckLease(now)
    {
      CheckLease(now);
      r := learned && leaseOwner == self;
    }

    method GetLeaseOwner(now: nat) returns (r: int)
      modifies this
      ensures State() == old(State()).CheckLease(now)
      ensures forall self: nat :: r == self <==> old(State()).IsLeaseOwner(self, now)
    {
      CheckLease(now);
      r := if learned then leaseOwner else -1;
    }
  }

  // ----- a whole node

  /** A node, with whether it wants the lease. */
  datatype Node = Node(p: Proposer, a: Acceptor, l: Learner, acquire: bool)

  datatype Output = Silence | Reply(dest: nat, msg: Msg) | Broadcast(all: Msg)

  function Sent(out: Output, n: nat): multiset<Packet> {
    match out
    case Silence => multiset{}
    case Reply(dest, m) => multiset{Packet(dest, m)}
    case Broadcast(m) => ToAll(n, m)
  }

  function Shout(out: Option<Msg>): Output { if out.None? then Silence else Broadcast(out.value) }

  /** A lapsed lease makes a node that wants one start a round, unless it is in one. */
  predicate Restarts(n: Node, now: nat) {
    n.l.learned && n.l.expire < now && n.acquire && !n.p.preparing && !n.p.proposing
  }

  /** Learning that somebody else has the lease makes a node stop. */
  predicate Stops(c: Config, owner: nat, duration: nat, local: nat, now: nat) {
    owner != c.self && Until(c.self, owner, duration, local, now) >= now
  }

  /** OnLearnChosen with its callbacks. */
  function Learn(c: Config, n: Node, m: Msg, now: nat): (Node, Output)
    requires c.Valid() && m.LearnChosen?
  {
    var p := if Restarts(n, now) then n.p.StartPreparing(c) else n.p;
    var out := if Restarts(n, now) then Broadcast(PrepareRequest(c.self, p.ballot, c.self)) else Silence;
    (n.(p := if Stops(c, m.owner, m.duration, m.localExpire, now) then p.StopAcquireLease() else p,
        l := n.l.OnLearnChosen(c.self, m.owner, m.duration, m.localExpire, now)), out)
  }

  /** What a message does to a node and what the node sends in answer. */
  function Read(c: Config, n: Node, m: Msg, filtered: bool, now: nat): (Node, Output)
    requires c.Valid()
  {
    var n1 := if m.IsRequest() && m.ballot > n.p.highest then n.(p := n.p.(highest := m.ballot)) else n;
    if m.IsPrepareResponse() then
      var (p, out) := n1.p.OnPrepareResponse(c, m, now); (n1.(p := p), Shout(out))
    else if m.IsProposeResponse() then
      var (p, out) := n1.p.OnProposeResponse(c, m, now); (n1.(p := p), Shout(out))
    else if m.PrepareRequest? then
      if filtered then (n1, Silence)
      else var (a, reply) := n1.a.OnPrepareRequest(c.self, m.ballot, now); (n1.(a := a), Reply(m.node, reply))
    else if m.ProposeRequest? then
      var (a, reply) := n1.a.OnProposeRequest(c.self, m.ballot, m.owner, m.duration, now); (n1.(a := a), Reply(m.node, reply))
    else Learn(c, n1, m, now)
  }

  // ----- a node in the step relation

  function NodeOf(s: System, i: nat, acquire: bool): Node
    requires s.Shaped() && i < |s.ps|
  {
    Node(s.ps[i], s.acs[i], s.ls[i], acquire)
  }

  /** s with node i as given, one packet fewer and what node i sends. */
  ghost predicate Changed(s: System, s': System, i: nat, n: Node, p: Packet, out: Output)
    requires i < |s.ps| == |s.acs| == |s.ls|
  {
    && s'.ps == s.ps[i := n.p] && s'.acs == s.acs[i := n.a] && s'.ls == s.ls[i := n.l]
    && s'.net == s.net - multiset{p} + Sent(out, |s.ps|) && s'.clock == s.clock
  }

  lemma PrepareRequestIsRead(s: System, p: Packet, filtered: bool, acquire: bool)
    requires s.Shaped() && p.dest < |s.ps| && p.msg.PrepareRequest?
    ensures var (n, out) := Read(s.configs[p.dest], NodeOf(s, p.dest, acquire), p.msg, filtered, s.Now(p.dest));
            Changed(s, Deliver(s, p, filtered), p.dest, n, p, out)
  {
    var i, m := p.dest, p.msg;
    var u := Notice(Take(s, p), i, m.ballot);
    assert u == Take(s, p).(ps := s.ps[i := u.ps[i]]);
    if !filtered {
      assert AnswerPrepare(u, i, m.node, m.ballot).ps == u.ps && AnswerPrepare(u, i, m.node, m.ballot).ls == s.ls[i := s.ls[i]];
    }
  }

  lemma ProposeRequestIsRead(s: System, p: Packet, filtered: bool, acquire: bool)
    requires s.Shaped() && p.dest < |s.ps| && p.msg.ProposeRequest?
    ensures var (n, out) := Read(s.configs[p.dest], NodeOf(s, p.dest, acquire), p.msg, filtered, s.Now(p.dest));
            Changed(s, Deliver(s, p, filtered), p.dest, n, p, out)
  {
  }

  lemma PrepareResponseIsRead(s: System, p: Packet, acquire: bool)
    requires s.Shaped() && p.dest < |s.ps| && p.msg.IsPrepareResponse()
    ensures var (n, out) := Read(s.configs[p.dest], NodeOf(s, p.dest, acquire), p.msg, false, s.Now(p.dest));
            Changed(s, DeliverPrepareResponse(Take(s, p), p.dest, p.msg), p.dest, n, p, out)
  {
    PrepareDeliveryIsHandler(Take(s, p), p.dest, p.msg);
  }

  lemma ProposeResponseIsRead(s: System, p: Packet, acquire: bool)
    requires s.Shaped() && p.dest < |s.ps| && p.msg.IsProposeResponse()
    ensures var (n, out) := Read(s.configs[p.dest], NodeOf(s, p.dest, acquire), p.msg, false, s.Now(p.dest));
            Changed(s, DeliverProposeResponse(Take(s, p), p.dest, p.msg), p.dest, n, p, out)
  {
    ProposeDeliveryIsHandler(Take(s, p), p.dest, p.msg);
  }

  /** Except for the learner's messages, a delivery step is one call of OnRead at the destination: the node changes as Read
      says, the packet is replaced by what Read sends, and no other node changes. */
  lemma DeliverIsRead(s: System, p: Packet, filtered: bool, acquire: bool)
    requires s.Shaped() && p.dest < |s.ps| && !p.msg.LearnChosen?
    ensures var (n, out) := Read(s.configs[p.dest], NodeOf(s, p.dest, acquire), p.msg, filtered, s.Now(p.dest));
            Changed(s, Deliver(s, p, filtered), p.dest, n, p, out)
  {
    if p.msg.PrepareRequest? {
      PrepareRequestIsRead(s, p, filtered, acquire);
    } else if p.msg.ProposeRequest? {
      ProposeRequestIsRead(s, p, filtered, acquire);
    } else if p.msg.IsPrepareResponse() {
      PrepareResponseIsRead(s, p, acquire);
    } else {
      ProposeResponseIsRead(s, p, acquire);
    }
  }

  /** The steps that one call of OnRead makes of a learner's message: a round started, if the old lease has lapsed; the
      delivery; a round stopped, if somebody else has the lease. */
  function LearnSteps(s: System, p: Packet, acquire: bool): seq<Event>
    requires s.Shaped() && p.dest < |s.ps| && p.msg.LearnChosen?
  {
    (if Restarts(NodeOf(s, p.dest, acquire), s.Now(p.dest)) then [Acquire(p.dest)] else [])
    + [Receive(p, false)]
    + (if Stops(s.configs[p.dest], p.msg.owner, p.msg.duration, p.msg.localExpire, s.Now(p.dest)) then [Stop(p.dest)] else [])
  }

  /** Execute events one after the other. */
  ghost predicate Leads(s: System, events: seq<Event>, s': System)
    decreases |events|
  {
    if events == [] then s' == s
    else s.Shaped() && Enabled(s, events[0], true) && Leads(Step(s, events[0]), events[1..], s')
  }

  /** The state after those steps. */
  ghost function Learned(s: System, p: Packet, restarts: bool, stops: bool): (s': System)
    requires s.Shaped() && p.dest < |s.ps| && p.msg.LearnChosen?
  {
    var s1 := if restarts then Start(s, p.dest) else s;
    var s2 := DeliverLearn(Take(s1, p), p.dest, p.msg);
    if stops then s2.(ps := s2.ps[p.dest := s2.ps[p.dest].StopAcquireLease()]) else s2
  }

  lemma LearnLeads(s: System, p: Packet, restarts: bool, stops: bool)
    requires s.Shaped() && p.dest < |s.ps| && p.msg.LearnChosen? && p in s.net
    ensures Leads(s, (if restarts then [Acquire(p.dest)] else []) + [Receive(p, false)] + (if stops then [Stop(p.dest)] else []),
                  Learned(s, p, restarts, stops))
  {
    var i, s' := p.dest, Learned(s, p, restarts, stops);
    var s1 := if restarts then Start(s, i) else s;
    var tail := if stops then [Stop(i)] else [];
    var events := [Receive(p, false)] + tail;
    assert s1.Shaped() && p in s1.net;
    DeliveredLeads(s1, p, stops);
    if restarts {
      assert ([Acquire(i)] + [Receive(p, false)] + tail)[1..] == events;
    } else {
      assert [] + [Receive(p, false)] + tail == events;
    }
  }

  lemma DeliveredLeads(s: System, p: Packet, stops: bool)
    requires s.Shaped() && p.dest < |s.ps| && p.msg.LearnChosen? && p in s.net
    ensures Leads(s, [Receive(p, false)] + (if stops then [Stop(p.dest)] else []), Learned(s, p, false, stops))
  {
    var i, s' := p.dest, Learned(s, p, false, stops);
    var s2 := DeliverLearn(Take(s, p), i, p.msg);
    var tail := if stops then [Stop(i)] else [];
    assert s2.Shaped() && Step(s, Receive(p, false)) == s2;
    assert Leads(s', [], s') && (stops ==> tail[1..] == []);
    assert Leads(s2, tail, s');
    assert ([Receive(p, false)] + tail)[1..] == tail;
  }

  lemma LearnChanges(s: System, p: Packet, n: Node, restarts: bool, stops: bool)
    requires s.Shaped() && p.dest < |s.ps| && p.msg.LearnChosen? && p in s.net && n == NodeOf(s, p.dest, n.acquire)
    requires restarts == Restarts(n, s.Now(p.dest))
    requires stops == Stops(s.configs[p.dest], p.msg.owner, p.msg.duration, p.msg.localExpire, s.Now(p.dest))
    ensures var (n', out) := Learn(s.configs[p.dest], n, p.msg, s.Now(p.dest));
            Changed(s, Learned(s, p, restarts, stops), p.dest, n', p, out)
  {
    LearnNets(s.net, p, ToAll(|s.ps|, PrepareRequest(p.dest, s.ps[p.dest].StartPreparing(s.configs[p.dest]).ballot, p.dest)));
  }

  /** A learner's message: one call of OnRead is one to three steps of the relation. */
  lemma LearnIsSteps(s: System, p: Packet, acquire: bool) returns (s': System)
    requires s.Shaped() && p.dest < |s.ps| && p.msg.LearnChosen? && p in s.net
    ensures Leads(s, LearnSteps(s, p, acquire), s')
    ensures var (n, out) := Read(s.configs[p.dest], NodeOf(s, p.dest, acquire), p.msg, false, s.Now(p.dest));
            Changed(s, s', p.dest, n, p, out)
  {
    var restarts := Restarts(NodeOf(s, p.dest, acquire), s.Now(p.dest));
    var stops := Stops(s.configs[p.dest], p.msg.owner, p.msg.duration, p.msg.localExpire, s.Now(p.dest));
    s' := Learned(s, p, restarts, stops);
    LearnLeads(s, p, restarts, stops);
    LearnChanges(s, p, NodeOf(s, p.dest, acquire), restarts, stops);
  }

  /** AcquireLease: the node and what it sends. */
  function Acquired(c: Config, n: Node): (Node, Option<Msg>)
    requires c.Valid()
  {
    if n.p.preparing || n.p.proposing then (n.(acquire := true), None)
    else
      var p := n.p.StartPreparing(c);
      (n.(p := p, acquire := true), Some(PrepareRequest(c.self, p.ballot, c.self)))
  }

  /** At a node with no round under way it is the step that starts one; otherwise it leaves the cell alone. */
  lemma AcquireIsStep(s: System, i: nat, acquire: bool)
    requires s.Shaped() && i < |s.ps|
    ensures var (n, out) := Acquired(s.configs[i], NodeOf(s, i, acquire));
      var s' := if out.Some? then Step(s, Acquire(i)) else s;
      && n.acquire && s'.ps == s.ps[i := n.p] && s'.acs == s.acs[i := n.a] && s'.ls == s.ls[i := n.l]
      && s'.net == Emit(s.net, |s.ps|, out) && s'.clock == s.clock
  {
  }

  lemma LearnNets(net: multiset<Packet>, p: Packet, sent: multiset<Packet>)
    requires p in net
    ensures net + sent - multiset{p} == net - multiset{p} + sent && net - multiset{p} + multiset{} == net - multiset{p}
  {
  }

  class PaxosLease {
    const config: Config
    const proposer: PLeaseProposer
    const acceptor: PLeaseAcceptor
    const learner: PLeaseLearner
    var acquireLease: bool

    function State(): Node
      reads this, proposer, acceptor, learner
    {
      Node(proposer.State(), acceptor.State(), learner.State(), acquireLease)
    }

    ghost predicate Valid()
      reads proposer
    {
      config.Valid() && (proposer.preparing ==> !proposer.proposing)
    }

    constructor (c: Config)
      requires c.Valid()
      ensures Valid() && config == c && State() == Node(INIT_PROPOSER, INIT_ACCEPTOR, INIT_LEARNER, false)
    {
      config, acquireLease := c, false;
      proposer := new PLeaseProposer();
      acceptor := new PLeaseAcceptor();
      learner := new PLeaseLearner();
    }

    /** Want the lease from now on, and start a round unless one is under way. */
    method AcquireLease() returns (out: Option<Msg>)
      requires Valid()
      modifies this, proposer
      ensures Valid() && (State(), out) == Acquired(config, old(State()))
    {
      acquireLease := true;
      out := proposer.StartAcquireLease(config);
    }

    /** The learner's callback when a lease has lapsed. */
    method OnLeaseTimeout() returns (out: Option<Msg>)
      requires Valid()
      modifies proposer
      ensures Valid()
      ensures var go := acquireLease && !old(proposer.preparing) && !old(proposer.proposing);
        && proposer.State() == (if go then old(proposer.State()).StartPreparing(config) else old(proposer.State()))
        && out == (if go then Some(PrepareRequest(config.self, proposer.State().ballot, config.self)) else None)
    {
      out := None;
      if acquireLease {
        out := proposer.StartAcquireLease(config);
      }
    }

    /** The learner's callback when a lease has been learned. */
    method OnLearnLease(now: nat)
      requires Valid() && (learner.learned ==> learner.expireTime >= now)
      modifies proposer, learner
      ensures Valid() && learner.State() == old(learner.State())
      ensures proposer.State() ==
              if old(learner.State()).IsLeaseOwner(config.self, now) then old(proposer.State()) else old(proposer.State()).StopAcquireLease()
    {
      var mine := learner.IsLeaseOwner(config.self, now);
      if !mine {
        proposer.StopAcquireLease();
      }
    }

    /** The learner's handler with its two callbacks. */
    method OnLearnChosen(msg: Msg, now: nat) returns (out: Output)
      requires Valid() && msg.LearnChosen?
      modifies proposer, learner
      ensures Valid()
      ensures (State(), out) == Learn(config, old(State()), msg, now)
      ensures learner.learned && learner.leaseOwner != config.self && msg.owner == learner.leaseOwner && msg.duration >= MARGIN ==>
                !proposer.preparing && !proposer.proposing
    {
      out := Silence;
      if learner.learned && learner.expireTime < now {
        var started := OnLeaseTimeout();
        out := Shout(started);
      }
      learner.OnLearnChosen(config.self, msg.owner, msg.duration, msg.localExpire, now);
      if Until(config.self, msg.owner, msg.duration, msg.localExpire, now) >= now {
        OnLearnLease(now);
      }
    }

    method OnRead(msg: Msg, filtered: bool, now: nat) returns (out: Output)
      requires Valid()
      modifies proposer, acceptor, learner
      ensures Valid()
      ensures (State(), out) == Read(config, old(State()), msg, filtered, now)
    {
      if msg.IsRequest() && msg.ballot > proposer.highestProposalID {
        proposer.highestProposalID := msg.ballot;
      }
      out := Silence;
      if msg.IsPrepareResponse() {
        var answer := proposer.OnPrepareResponse(config, msg, now);
        out := Shout(answer);
      } else if msg.IsProposeResponse() {
        var answer := proposer.OnProposeResponse(config, msg, now);
        out := Shout(answer);
      } else if msg.PrepareRequest? {
        if !filtered {
          var reply := acceptor.OnPrepareRequest(config.self, msg.ballot, now);
          out := Reply(msg.node, reply);
        }
      } else if msg.ProposeRequest? {
        var reply := acceptor.OnProposeRequest(config.self, msg.ballot, msg.owner, msg.duration, now);
        out := Reply(msg.node, reply);
      } else {
        out := OnLearnChosen(msg, now);
      }
    }
  }
}
