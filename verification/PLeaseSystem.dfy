/** A cell of PaxosLease nodes on an unreliable network, as a step relation (PL/PaxosLease.cpp).

    Messages may be lost, delayed and reordered, but not duplicated. Clocks tick at one rate with arbitrary offsets.
    Nodes do not restart during a run. Acceptor timers fire from the stored expiry on, at any time. Every trigger that
    starts or stops an acquisition (timers, callbacks) may come at any time. The history records what has happened so far
    and influences no step, save that in a strict run a propose request is only delivered to nodes that have
    answered the prepare request of its ballot. */
module PLeaseSystem {
  import opened PLease

  datatype Packet = Packet(dest: nat, msg: Msg)

  datatype Key = Key(node: nat, ballot: nat)

  /** A positive answer to a prepare request, and when (by the global clock) it was given. */
  datatype Promise = Promise(reply: Msg, at: nat)

  /** When a ballot was first proposed, and whose answers it was proposed on. */
  datatype Proposal = Proposal(start: nat, quorum: set<nat>)

  datatype History = History(
    issued: set<nat>,                // ballots handed out
    asked: set<Key>,                 // prepare requests answered
    promises: map<Key, Promise>,     // ... positively
    heard: map<nat, set<nat>>,       // positive answers counted, by ballot
    proposals: map<nat, Proposal>,
    offered: set<Key>,               // propose requests answered
    voters: map<nat, set<nat>>,      // ... positively, by ballot
    counted: map<nat, set<nat>>,     // acceptances counted, by ballot
    onTick: set<nat>                 // when an acceptor's timer has fired on the very tick of its expiry
  )

  /** A lease announced, and when (by the global clock). */
  datatype Announcement = Announcement(msg: Msg, at: nat)

  /** All announcements, and the nodes that know of a lease by one that came later than the learner's margin allows. Like the
      history, no step depends on it. */
  datatype News = News(announced: set<Announcement>, late: set<nat>)

  function At(m: map<nat, set<nat>>, b: nat): set<nat> { if b in m then m[b] else {} }

  function Join(m: map<nat, set<nat>>, b: nat, i: nat): map<nat, set<nat>> { m[b := At(m, b) + {i}] }

  datatype System = System(configs: seq<Config>, offsets: seq<nat>, clock: nat,
                           ps: seq<Proposer>, acs: seq<Acceptor>, ls: seq<Learner>, net: multiset<Packet>, h: History,
                           news: News)
  {
    ghost predicate Shaped() {
      && 0 < |configs| <= NODES
      && |offsets| == |ps| == |acs| == |ls| == |configs|
      && forall i :: 0 <= i < |configs| ==> configs[i].Valid() && configs[i].self == i && configs[i].numNodes == |configs|
    }

    /** The time node i reads off its own clock. */
    function Now(i: nat): nat
      requires i < |offsets|
    {
      clock + offsets[i]
    }
  }

  function ToAll(n: nat, m: Msg): multiset<Packet> {
    multiset(set i | 0 <= i < n :: Packet(i, m))
  }

  /** The network after a broadcast, if there is one. */
  function Emit(net: multiset<Packet>, n: nat, out: Option<Msg>): multiset<Packet> {
    if out.None? then net else net + ToAll(n, out.value)
  }

  // ----- pieces of steps

  function Take(s: System, p: Packet): System { s.(net := s.net - multiset{p}) }

  /** StartPreparing at node i. */
  function Start(s: System, i: nat): System
    requires s.Shaped() && i < |s.ps|
  {
    var p := s.ps[i].StartPreparing(s.configs[i]);
    s.(ps := s.ps[i := p],
       net := s.net + ToAll(|s.ps|, PrepareRequest(i, p.ballot, i)),
       h := s.h.(issued := s.h.issued + {p.ballot}))
  }

  /** StartProposing at node i. */
  function Propose(s: System, i: nat): System
    requires s.Shaped() && i < |s.ps|
  {
    var b := s.ps[i].ballot;
    var p := s.ps[i].StartProposing(s.configs[i], s.Now(i));
    var s' := s.(ps := s.ps[i := p]);
    if !p.proposing then s'
    else
      s'.(net := s.net + ToAll(|s.ps|, ProposeRequest(i, b, p.owner, p.duration)),
          h := s.h.(proposals := s.h.proposals[b := Proposal(s.clock, At(s.h.heard, b))]))
  }

  /** OnRead raises the highest ballot seen by any request. */
  function Notice(s: System, i: nat, ballot: nat): System
    requires s.Shaped() && i < |s.ps|
  {
    if ballot > s.ps[i].highest then s.(ps := s.ps[i := s.ps[i].(highest := ballot)]) else s
  }

  /** The acceptor of node i answers a prepare request. */
  function AnswerPrepare(s: System, i: nat, from: nat, ballot: nat): System
    requires s.Shaped() && i < |s.ps|
  {
    var (a, reply) := s.acs[i].OnPrepareRequest(i, ballot, s.Now(i));
    var k := Key(i, ballot);
    s.(acs := s.acs[i := a], net := s.net + multiset{Packet(from, reply)},
       h := s.h.(asked := s.h.asked + {k},
                 promises := if reply.PrepareRejected? then s.h.promises else s.h.promises[k := Promise(reply, s.clock)]))
  }

  /** The acceptor of node i answers a propose request. */
  function AnswerPropose(s: System, i: nat, m: Msg): System
    requires s.Shaped() && i < |s.ps| && m.ProposeRequest?
  {
    var (a, reply) := s.acs[i].OnProposeRequest(i, m.ballot, m.owner, m.duration, s.Now(i));
    s.(acs := s.acs[i := a], net := s.net + multiset{Packet(m.node, reply)},
       h := s.h.(offered := s.h.offered + {Key(i, m.ballot)},
                 voters := if reply.ProposeAccepted? then Join(s.h.voters, m.ballot, i) else s.h.voters))
  }

  /** The proposer of node i counts an answer to its prepare. */
  function CountPrepare(s: System, i: nat, m: Msg): System
    requires s.Shaped() && i < |s.ps| && m.IsPrepareResponse()
  {
    s.(ps := s.ps[i := s.ps[i].CountPrepare(m)],
       h := if m.PrepareRejected? then s.h else s.h.(heard := Join(s.h.heard, m.ballot, m.node)))
  }

  /** The proposer of node i counts an answer to its propose. */
  function CountPropose(s: System, i: nat, m: Msg): System
    requires s.Shaped() && i < |s.ps| && m.IsProposeResponse()
  {
    s.(ps := s.ps[i := s.ps[i].CountPropose(m)],
       h := if m.ProposeAccepted? then s.h.(counted := Join(s.h.counted, m.ballot, m.node)) else s.h)
  }

  /** The timer of acceptor i fires. */
  function TimeOut(s: System, i: nat): System
    requires s.Shaped() && i < |s.ps|
  {
    s.(acs := s.acs[i := s.acs[i].OnLeaseTimeout()],
       h := if s.acs[i].acceptedExpire == s.Now(i) then s.h.(onTick := s.h.onTick + {s.clock}) else s.h)
  }

  /** A majority has accepted: tell everyone. */
  function Announce(s: System, i: nat): System
    requires s.Shaped() && i < |s.ps| && s.ps[i].expire >= s.Now(i)
  {
    var p := s.ps[i];
    var m := LearnChosen(i, p.owner, p.expire - s.Now(i), p.expire);
    s.(ps := s.ps[i := p.(proposing := false).Reset()], net := s.net + ToAll(|s.ps|, m),
       news := s.news.(announced := s.news.announced + {Announcement(m, s.clock)}))
  }

  // ----- delivery of one message

  function DeliverPrepareResponse(s: System, i: nat, m: Msg): System
    requires s.Shaped() && i < |s.ps| && m.IsPrepareResponse()
  {
    if !s.ps[i].preparing || m.ballot != s.ps[i].ballot then s
    else
      var t := CountPrepare(s, i, m);
      if t.ps[i].PrepareRefused(s.configs[i]) then Start(t, i)
      else if t.ps[i].PrepareWon(s.configs[i]) then Propose(t, i)
      else t
  }

  function DeliverProposeResponse(s: System, i: nat, m: Msg): System
    requires s.Shaped() && i < |s.ps| && m.IsProposeResponse()
  {
    if s.ps[i].expire < s.Now(i) || !s.ps[i].proposing || m.ballot != s.ps[i].ballot then s
    else
      var t := CountPropose(s, i, m);
      if t.ps[i].ProposeWon(s.configs[i], s.Now(i)) then Announce(t, i)
      else if t.ps[i].numReceived == |s.ps| then Start(t, i)
      else t
  }

  function DeliverLearn(s: System, i: nat, m: Msg): System
    requires s.Shaped() && i < |s.ps| && m.LearnChosen?
  {
    s.(ls := s.ls[i := s.ls[i].OnLearnChosen(i, m.owner, m.duration, m.localExpire, s.Now(i))],
       news := if Until(i, m.owner, m.duration, m.localExpire, s.Now(i)) < s.Now(i) then s.news
               else s.news.(late := if Delayed(s, m) then s.news.late + {i} else s.news.late - {i}))
  }

  /** The message was announced longer ago than the margin. */
  predicate Delayed(s: System, m: Msg) { forall a :: a in s.news.announced && a.msg == m ==> a.at + MARGIN < s.clock }

  /** OnRead: dispatch on the message type. A prepare request may be filtered for its paxos id. */
  function Deliver(s: System, p: Packet, filtered: bool): System
    requires s.Shaped() && p.dest < |s.ps|
  {
    var t := Take(s, p);
    var m := p.msg;
    if m.PrepareRequest? then
      var u := Notice(t, p.dest, m.ballot);
      if filtered then u else AnswerPrepare(u, p.dest, m.node, m.ballot)
    else if m.ProposeRequest? then AnswerPropose(Notice(t, p.dest, m.ballot), p.dest, m)
    else if m.IsPrepareResponse() then DeliverPrepareResponse(t, p.dest, m)
    else if m.IsProposeResponse() then DeliverProposeResponse(t, p.dest, m)
    else DeliverLearn(t, p.dest, m)
  }

  // ----- steps and runs

  datatype Event =
    | Tick(ticks: nat)
    | Acquire(node: nat)
    | Stop(node: nat)
    | AcceptorTimer(node: nat)
    | LearnerTimer(node: nat)
    | CheckLease(node: nat)
    | Lose(packet: Packet)
    | Receive(packet: Packet, filtered: bool)

  ghost predicate Enabled(s: System, e: Event, strict: bool)
    requires s.Shaped()
  {
    match e
    case Tick(_) => true
    case Acquire(i) => i < |s.ps|
    case Stop(i) => i < |s.ps|
    case AcceptorTimer(i) => i < |s.ps| && s.acs[i].accepted && s.acs[i].acceptedExpire <= s.Now(i)
    case LearnerTimer(i) => i < |s.ps|
    case CheckLease(i) => i < |s.ps|
    case Lose(p) => p in s.net
    case Receive(p, _) =>
      && p in s.net && p.dest < |s.ps|
      && (strict && p.msg.ProposeRequest? ==> Key(p.dest, p.msg.ballot) in s.h.asked)
  }

  function Step(s: System, e: Event): System
    requires s.Shaped() && Enabled(s, e, false)
  {
    match e
    case Tick(ticks) => s.(clock := s.clock + ticks)
    case Acquire(i) => Start(s, i)
    case Stop(i) => s.(ps := s.ps[i := s.ps[i].StopAcquireLease()])
    case AcceptorTimer(i) => TimeOut(s, i)
    case LearnerTimer(i) => s.(ls := s.ls[i := s.ls[i].OnLeaseTimeout()])
    case CheckLease(i) => s.(ls := s.ls[i := s.ls[i].CheckLease(s.Now(i))])
    case Lose(p) => Take(s, p)
    case Receive(p, filtered) => Deliver(s, p, filtered)
  }

  ghost predicate Init(s: System) {
    && s.Shaped()
    && (forall i :: 0 <= i < |s.ps| ==> s.ps[i] == INIT_PROPOSER && s.acs[i] == INIT_ACCEPTOR && s.ls[i] == INIT_LEARNER)
    && s.net == multiset{}
    && s.h == History({}, {}, map[], map[], map[], {}, map[], map[], {})
    && s.news == News({}, {})
  }

  /** A run, with the events that make its steps. */
  ghost predicate Run(states: seq<System>, events: seq<Event>, strict: bool) {
    && |states| == |events| + 1
    && Init(states[0])
    && forall k :: 0 <= k < |events| ==>
         states[k].Shaped() && Enabled(states[k], events[k], strict) && states[k + 1] == Step(states[k], events[k])
  }

  ghost predicate Owns(s: System, i: nat)
    requires s.Shaped() && i < |s.ls|
  {
    s.ls[i].IsLeaseOwner(i, s.Now(i))
  }

  /** Every piece of a step keeps the shape. */
  lemma StepShaped(s: System, e: Event)
    requires s.Shaped() && Enabled(s, e, false)
    ensures Step(s, e).Shaped() && Step(s, e).configs == s.configs && Step(s, e).offsets == s.offsets
  {
    if e.Receive? { DeliverShaped(s, e.packet, e.filtered); }
  }

  lemma DeliverShaped(s: System, p: Packet, filtered: bool)
    requires s.Shaped() && p.dest < |s.ps|
    ensures var s' := Deliver(s, p, filtered); s'.Shaped() && s'.configs == s.configs && s'.offsets == s.offsets
  {
    if p.msg.IsPrepareResponse() || p.msg.IsProposeResponse() { ResponseShaped(Take(s, p), p.dest, p.msg); }
  }

  lemma ResponseShaped(s: System, i: nat, m: Msg)
    requires s.Shaped() && i < |s.ps|
    ensures m.IsPrepareResponse() ==>
      var s' := DeliverPrepareResponse(s, i, m); s'.Shaped() && s'.configs == s.configs && s'.offsets == s.offsets
    ensures m.IsProposeResponse() ==>
      var s' := DeliverProposeResponse(s, i, m); s'.Shaped() && s'.configs == s.configs && s'.offsets == s.offsets
  {
  }

  /** What delivery does to a node is what its handlers do. */
  lemma PrepareDeliveryIsHandler(s: System, i: nat, m: Msg)
    requires s.Shaped() && i < |s.ps| && m.IsPrepareResponse()
    ensures var (p, out) := s.ps[i].OnPrepareResponse(s.configs[i], m, s.Now(i));
      var t := DeliverPrepareResponse(s, i, m);
      && t.ps == s.ps[i := p] && t.acs == s.acs && t.ls == s.ls && t.clock == s.clock
      && t.net == Emit(s.net, |s.ps|, out)
  {
    if s.ps[i].preparing && m.ballot == s.ps[i].ballot {
      var t := CountPrepare(s, i, m);
      var p := s.ps[i].CountPrepare(m);
      assert t == s.(ps := s.ps[i := p], h := t.h);
      if p.PrepareRefused(s.configs[i]) {
        StartIsHandler(s, t, i, p);
      } else if p.PrepareWon(s.configs[i]) {
        ProposeIsHandler(s, t, i, p);
      }
    }
  }

  lemma StartIsHandler(s: System, t: System, i: nat, p: Proposer)
    requires s.Shaped() && i < |s.ps| && t == s.(ps := s.ps[i := p], h := t.h)
    ensures var p' := p.StartPreparing(s.configs[i]);
      && Start(t, i) == t.(ps := s.ps[i := p'], net := Start(t, i).net, h := Start(t, i).h)
      && Start(t, i).net == s.net + ToAll(|s.ps|, PrepareRequest(i, p'.ballot, i))
  {
  }

  lemma ProposeIsHandler(s: System, t: System, i: nat, p: Proposer)
    requires s.Shaped() && i < |s.ps| && t == s.(ps := s.ps[i := p], h := t.h)
    ensures var p' := p.StartProposing(s.configs[i], s.Now(i));
      && Propose(t, i) == t.(ps := s.ps[i := p'], net := Propose(t, i).net, h := Propose(t, i).h)
      && Propose(t, i).net == Emit(s.net, |s.ps|, if p'.proposing then Some(ProposeRequest(i, p'.ballot, p'.owner, p'.duration)) else None)
  {
  }

  lemma ProposeDeliveryIsHandler(s: System, i: nat, m: Msg)
    requires s.Shaped() && i < |s.ps| && m.IsProposeResponse()
    ensures var (p, out) := s.ps[i].OnProposeResponse(s.configs[i], m, s.Now(i));
      var t := DeliverProposeResponse(s, i, m);
      && t.ps == s.ps[i := p] && t.acs == s.acs && t.ls == s.ls && t.clock == s.clock
      && t.net == Emit(s.net, |s.ps|, out)
  {
  }

  lemma ResponseAsksNothing(s: System, i: nat, m: Msg)
    requires s.Shaped() && i < |s.ps|
    ensures m.IsPrepareResponse() ==> DeliverPrepareResponse(s, i, m).h.asked == s.h.asked
    ensures m.IsProposeResponse() ==> DeliverProposeResponse(s, i, m).h.asked == s.h.asked
  {
  }
}
