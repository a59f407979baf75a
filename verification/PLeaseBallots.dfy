/** Ballots over whole runs, with or without the delivery premise: promises never go back, and every new ballot of a
    node is above all it has used or seen and belongs to no other node. */
module PLeaseBallots {
  import opened PLease
  import opened PLeaseSystem

  /** What one step may do to the ballots of node i. */
  ghost predicate Advances(p: Proposer, p': Proposer, a: Acceptor, a': Acceptor, i: nat) {
    && a'.promised >= a.promised
    && p'.highest >= p.highest
    && NewBallot(p, p', i)
  }

  ghost predicate NewBallot(p: Proposer, p': Proposer, i: nat) {
    p'.ballot != p.ballot ==> p.highest < p'.ballot <= p'.highest && OwnerOf(p'.ballot) == i
  }

  lemma HandlersAdvance(p: Proposer, c: Config, m: Msg, now: nat)
    requires c.Valid()
    ensures m.IsPrepareResponse() ==>
      var p' := p.OnPrepareResponse(c, m, now).0; p'.highest >= p.highest && NewBallot(p, p', c.self)
    ensures m.IsProposeResponse() ==>
      var p' := p.OnProposeResponse(c, m, now).0; p'.highest >= p.highest && NewBallot(p, p', c.self)
  {
  }

  lemma ResponseAdvances(s: System, n: nat, m: Msg, i: nat)
    requires s.Shaped() && n < |s.ps| && i < |s.ps|
    ensures m.IsPrepareResponse() ==> var s' := DeliverPrepareResponse(s, n, m);
      |s'.ps| == |s'.acs| == |s.ps| && Advances(s.ps[i], s'.ps[i], s.acs[i], s'.acs[i], i)
    ensures m.IsProposeResponse() ==> var s' := DeliverProposeResponse(s, n, m);
      |s'.ps| == |s'.acs| == |s.ps| && Advances(s.ps[i], s'.ps[i], s.acs[i], s'.acs[i], i)
  {
    if m.IsPrepareResponse() { PrepareDeliveryIsHandler(s, n, m); }
    if m.IsProposeResponse() { ProposeDeliveryIsHandler(s, n, m); }
    HandlersAdvance(s.ps[n], s.configs[n], m, s.Now(n));
  }

  lemma DeliverAdvances(s: System, p: Packet, filtered: bool, i: nat)
    requires s.Shaped() && Enabled(s, Receive(p, filtered), false) && i < |s.ps|
    ensures var s' := Deliver(s, p, filtered);
            |s'.ps| == |s'.acs| == |s.ps| && Advances(s.ps[i], s'.ps[i], s.acs[i], s'.acs[i], i)
  {
    if p.msg.IsRequest() {
      RequestAdvances(s, p, filtered, i);
    } else {
      ResponseAdvances(Take(s, p), p.dest, p.msg, i);
    }
  }

  lemma RequestAdvances(s: System, p: Packet, filtered: bool, i: nat)
    requires s.Shaped() && p.dest < |s.ps| && i < |s.ps| && p.msg.IsRequest()
    ensures var s' := Deliver(s, p, filtered);
            |s'.ps| == |s'.acs| == |s.ps| && Advances(s.ps[i], s'.ps[i], s.acs[i], s'.acs[i], i)
  {
  }

  lemma StepAdvances(s: System, e: Event, i: nat)
    requires s.Shaped() && Enabled(s, e, false) && i < |s.ps|
    ensures Step(s, e).Shaped() && |Step(s, e).ps| == |s.ps|
    ensures Advances(s.ps[i], Step(s, e).ps[i], s.acs[i], Step(s, e).acs[i], i)
  {
    StepShaped(s, e);
    if e.Receive? { DeliverAdvances(s, e.packet, e.filtered, i); }
  }

  /** A request raises the highest ballot its receiver has seen. */
  lemma RequestSeen(s: System, p: Packet, filtered: bool)
    requires s.Shaped() && Enabled(s, Receive(p, filtered), false) && p.msg.IsRequest()
    ensures var s' := Step(s, Receive(p, filtered));
            |s'.ps| == |s.ps| && s'.ps[p.dest].highest >= p.msg.ballot
  {
    var u := Notice(Take(s, p), p.dest, p.msg.ballot);
    assert u.ps[p.dest].highest >= p.msg.ballot;
    if p.msg.PrepareRequest? {
      assert AnswerPrepare(u, p.dest, p.msg.node, p.msg.ballot).ps == u.ps;
    } else {
      assert AnswerPropose(u, p.dest, p.msg).ps == u.ps;
    }
  }

  ghost predicate Owned(p: Proposer, i: nat) {
    p.ballot <= p.highest && (p.ballot > 0 ==> OwnerOf(p.ballot) == i)
  }

  lemma {:induction false} RunOwned(states: seq<System>, events: seq<Event>, strict: bool, k: nat, i: nat)
    requires Run(states, events, strict) && k <= |events| && i < |states[0].ps|
    ensures states[k].Shaped() && |states[k].ps| == |states[0].ps| && Owned(states[k].ps[i], i)
  {
    if k > 0 {
      RunOwned(states, events, strict, k - 1, i);
      StepAdvances(states[k - 1], events[k - 1], i);
    }
  }

  /** Promises and ballots never go back, even across lease timeouts. */
  lemma {:induction false} BallotsMonotone(states: seq<System>, events: seq<Event>, strict: bool, j: nat, k: nat, i: nat)
    requires Run(states, events, strict) && j <= k <= |events| && i < |states[0].ps|
    ensures states[k].Shaped() && states[j].Shaped() && |states[k].ps| == |states[j].ps| == |states[0].ps|
    ensures states[j].acs[i].promised <= states[k].acs[i].promised
    ensures states[j].ps[i].highest <= states[k].ps[i].highest
    ensures states[j].ps[i].ballot == states[k].ps[i].ballot || states[j].ps[i].highest < states[k].ps[i].ballot
    ensures states[j].ps[i].ballot <= states[k].ps[i].ballot
  {
    RunOwned(states, events, strict, j, i);
    if j < k {
      BallotsMonotone(states, events, strict, j, k - 1, i);
      StepAdvances(states[k - 1], events[k - 1], i);
    }
  }

  /** A ballot taken up at step k is above every request ballot the node received before, and above its own ballots. */
  lemma NewBallotAboveAllSeen(states: seq<System>, events: seq<Event>, strict: bool, j: nat, k: nat, i: nat)
    requires Run(states, events, strict) && j <= k < |events| && i < |states[0].ps|
    requires |states[k].ps| == |states[k + 1].ps| == |states[0].ps| && states[k + 1].ps[i].ballot != states[k].ps[i].ballot
    ensures |states[j].ps| == |states[0].ps| && states[k + 1].ps[i].ballot > states[j].ps[i].ballot
    ensures (events[j].Receive? && events[j].packet.dest == i && events[j].packet.msg.IsRequest()) ==>
              states[k + 1].ps[i].ballot > events[j].packet.msg.ballot
  {
    BallotsMonotone(states, events, strict, j, k, i);
    RunOwned(states, events, strict, k, i);
    StepAdvances(states[k], events[k], i);
    if events[j].Receive? && events[j].packet.dest == i && events[j].packet.msg.IsRequest() {
      RequestSeen(states[j], events[j].packet, events[j].filtered);
      if j < k {
        BallotsMonotone(states, events, strict, j + 1, k, i);
      }
    }
  }

  /** Two nodes never use the same ballot, whenever they use it. */
  lemma BallotsNeverShared(states: seq<System>, events: seq<Event>, strict: bool, j: nat, k: nat, i: nat, i': nat)
    requires Run(states, events, strict) && j <= |events| && k <= |events| && i < |states[0].ps| && i' < |states[0].ps|
    requires |states[j].ps| == |states[k].ps| == |states[0].ps|
    requires states[j].ps[i].ballot == states[k].ps[i'].ballot > 0
    ensures i == i'
  {
    RunOwned(states, events, strict, j, i);
    RunOwned(states, events, strict, k, i');
  }
}
