/** Runs that two nodes end as lease owners: without the delivery premise (accepting a ballot does not promise it, so an
    acceptor can go back to a lower ballot, PL/PLeaseAcceptor.cpp:111-124), and with it on the last tick of a lease, when the
    acceptors' timers, armed for the lease's duration, have already fired (PL/PLeaseAcceptor.cpp:119-121). */
module PLeaseLoose {
  import opened PLease
  import opened PLeaseSystem

  ghost predicate Reachable(s: System, strict: bool) {
    exists states: seq<System>, events: seq<Event> :: Run(states, events, strict) && states[|events|] == s
  }

  lemma ReachInit(s: System, strict: bool)
    requires Init(s)
    ensures Reachable(s, strict)
  {
    assert Run([s], [], strict);
  }

  lemma ReachStep(s: System, e: Event, strict: bool)
    requires Reachable(s, strict) && s.Shaped() && Enabled(s, e, strict) && Enabled(s, e, false)
    ensures Reachable(Step(s, e), strict)
  {
    var states: seq<System>, events: seq<Event> :| Run(states, events, strict) && states[|events|] == s;
    var states', events' := states + [Step(s, e)], events + [e];
    forall k | 0 <= k < |events'|
      ensures states'[k].Shaped() && Enabled(states'[k], events'[k], strict) && states'[k + 1] == Step(states'[k], events'[k])
    {
      if k < |events| {
        assert states'[k] == states[k] && states'[k + 1] == states[k + 1] && events'[k] == events[k];
      }
    }
    assert Run(states', events', strict);
  }

  // ----- cells of n nodes with synchronous clocks

  /** A reachable state of such a cell at time t. */
  ghost predicate Cell(s: System, n: nat, t: nat, strict: bool) {
    && 0 < n <= NODES && |s.configs| == |s.offsets| == |s.ps| == |s.acs| == |s.ls| == n
    && (forall i: nat :: i < n ==> s.configs[i] == Config(i, n, 0) && s.offsets[i] == 0)
    && s.clock == t && Reachable(s, strict)
  }

  lemma CellShaped(s: System, n: nat, t: nat, strict: bool)
    requires Cell(s, n, t, strict)
    ensures s.Shaped() && forall i: nat :: i < n ==> s.Now(i) == t
  {
  }

  /** The state of a cell before anything has happened. */
  ghost predicate Untouched(s: System, n: nat) {
    && |s.ps| == |s.acs| == |s.ls| == n
    && forall i: nat :: i < n ==> s.ps[i] == INIT_PROPOSER && s.acs[i] == INIT_ACCEPTOR && s.ls[i] == INIT_LEARNER
  }

  lemma GoInit(n: nat, strict: bool) returns (s: System)
    requires 0 < n <= NODES
    ensures Cell(s, n, 0, strict) && Untouched(s, n)
  {
    s := System(seq(n, i requires 0 <= i < n => Config(i, n, 0)), seq(n, _ => 0), 0, seq(n, _ => INIT_PROPOSER),
                seq(n, _ => INIT_ACCEPTOR), seq(n, _ => INIT_LEARNER), multiset{},
                History({}, {}, map[], map[], map[], {}, map[], map[], {}), News({}, {}));
    ReachInit(s, strict);
  }

  /** The packets of one network other than p are in another. */
  ghost predicate Kept(net: multiset<Packet>, net': multiset<Packet>, p: Packet) {
    forall q :: q in net && q != p ==> q in net'
  }

  lemma Emitted(net: multiset<Packet>, p: Packet, n: nat, out: Option<Msg>)
    ensures Kept(net, Emit(net - multiset{p}, n, out), p)
    ensures out.Some? ==> forall j: nat :: j < n ==> Packet(j, out.value) in Emit(net - multiset{p}, n, out)
  {
  }

  lemma StepCell(s: System, e: Event, n: nat, t: nat, strict: bool)
    requires Cell(s, n, t, strict) && s.Shaped() && Enabled(s, e, strict) && Enabled(s, e, false) && !e.Tick?
    ensures Cell(Step(s, e), n, t, strict)
  {
    ReachStep(s, e, strict);
    StepShaped(s, e);
  }

  lemma GoTick(s: System, n: nat, t: nat, strict: bool, ticks: nat) returns (s': System)
    requires Cell(s, n, t, strict)
    ensures Cell(s', n, t + ticks, strict) && s' == s.(clock := t + ticks)
  {
    CellShaped(s, n, t, strict);
    s' := Step(s, Tick(ticks));
    ReachStep(s, Tick(ticks), strict);
  }

  lemma GoTimer(s: System, n: nat, t: nat, strict: bool, i: nat) returns (s': System)
    requires Cell(s, n, t, strict) && i < n && s.acs[i].accepted && s.acs[i].acceptedExpire <= t
    ensures Cell(s', n, t, strict)
    ensures s'.ps == s.ps && s'.ls == s.ls && s'.acs == s.acs[i := s.acs[i].OnLeaseTimeout()]
  {
    CellShaped(s, n, t, strict);
    s' := Step(s, AcceptorTimer(i));
    StepCell(s, AcceptorTimer(i), n, t, strict);
  }

  lemma GoAcquire(s: System, n: nat, t: nat, strict: bool, i: nat) returns (s': System)
    requires Cell(s, n, t, strict) && i < n
    ensures var p := s.ps[i].StartPreparing(Config(i, n, 0));
            && Cell(s', n, t, strict) && s'.ps == s.ps[i := p] && s'.acs == s.acs && s'.ls == s.ls
            && (forall q :: q in s.net ==> q in s'.net) && s'.h.asked == s.h.asked
            && forall j: nat :: j < n ==> Packet(j, PrepareRequest(i, p.ballot, i)) in s'.net
  {
    CellShaped(s, n, t, strict);
    s' := Step(s, Acquire(i));
    StepCell(s, Acquire(i), n, t, strict);
  }

  function Raise(p: Proposer, ballot: nat): Proposer { p.(highest := if ballot > p.highest then ballot else p.highest) }

  lemma GoPrepareRequest(s: System, n: nat, t: nat, strict: bool, to: nat, m: Msg) returns (s': System)
    requires Cell(s, n, t, strict) && to < n && m.PrepareRequest? && Packet(to, m) in s.net
    ensures var (a, reply) := s.acs[to].OnPrepareRequest(to, m.ballot, t);
            && Cell(s', n, t, strict) && s'.acs == s.acs[to := a] && s'.ls == s.ls && s'.ps == s.ps[to := Raise(s.ps[to], m.ballot)]
            && Kept(s.net, s'.net, Packet(to, m)) && Packet(m.node, reply) in s'.net
            && s'.h.asked == s.h.asked + {Key(to, m.ballot)}
  {
    CellShaped(s, n, t, strict);
    var e := Receive(Packet(to, m), false);
    s' := Step(s, e);
    StepCell(s, e, n, t, strict);
  }

  lemma GoProposeRequest(s: System, n: nat, t: nat, strict: bool, to: nat, m: Msg) returns (s': System)
    requires Cell(s, n, t, strict) && to < n && m.ProposeRequest? && Packet(to, m) in s.net
    requires strict ==> Key(to, m.ballot) in s.h.asked
    ensures var (a, reply) := s.acs[to].OnProposeRequest(to, m.ballot, m.owner, m.duration, t);
            && Cell(s', n, t, strict) && s'.acs == s.acs[to := a] && s'.ls == s.ls && s'.ps == s.ps[to := Raise(s.ps[to], m.ballot)]
            && Kept(s.net, s'.net, Packet(to, m)) && Packet(m.node, reply) in s'.net
            && s'.h.asked == s.h.asked
  {
    CellShaped(s, n, t, strict);
    var e := Receive(Packet(to, m), false);
    s' := Step(s, e);
    StepCell(s, e, n, t, strict);
  }

  lemma PrepareReply(s: System, to: nat, m: Msg, s': System)
    requires s.Shaped() && to < |s.ps| && m.IsPrepareResponse() && s' == DeliverPrepareResponse(Take(s, Packet(to, m)), to, m)
    ensures var (p, out) := s.ps[to].OnPrepareResponse(s.configs[to], m, s.Now(to));
            && s'.ps == s.ps[to := p] && s'.acs == s.acs && s'.ls == s.ls
            && s'.net == Emit(s.net - multiset{Packet(to, m)}, |s.ps|, out) && s'.h.asked == s.h.asked
  {
    PrepareDeliveryIsHandler(Take(s, Packet(to, m)), to, m);
    ResponseAsksNothing(Take(s, Packet(to, m)), to, m);
  }

  lemma GoPrepareReply(s: System, n: nat, t: nat, strict: bool, to: nat, m: Msg) returns (s': System)
    requires Cell(s, n, t, strict) && to < n && m.IsPrepareResponse() && Packet(to, m) in s.net
    ensures var (p, out) := s.ps[to].OnPrepareResponse(Config(to, n, 0), m, t);
            && Cell(s', n, t, strict) && s'.ps == s.ps[to := p] && s'.acs == s.acs && s'.ls == s.ls
            && Kept(s.net, s'.net, Packet(to, m)) && s'.h.asked == s.h.asked
            && (out.Some? ==> forall j: nat :: j < n ==> Packet(j, out.value) in s'.net)
  {
    CellShaped(s, n, t, strict);
    var e := Receive(Packet(to, m), false);
    s' := Step(s, e);
    StepCell(s, e, n, t, strict);
    PrepareReply(s, to, m, s');
    Emitted(s.net, Packet(to, m), n, s.ps[to].OnPrepareResponse(s.configs[to], m, s.Now(to)).1);
  }

  lemma ProposeReply(s: System, to: nat, m: Msg, s': System)
    requires s.Shaped() && to < |s.ps| && m.IsProposeResponse() && s' == DeliverProposeResponse(Take(s, Packet(to, m)), to, m)
    ensures var (p, out) := s.ps[to].OnProposeResponse(s.configs[to], m, s.Now(to));
            && s'.ps == s.ps[to := p] && s'.acs == s.acs && s'.ls == s.ls
            && s'.net == Emit(s.net - multiset{Packet(to, m)}, |s.ps|, out) && s'.h.asked == s.h.asked
  {
    ProposeDeliveryIsHandler(Take(s, Packet(to, m)), to, m);
    ResponseAsksNothing(Take(s, Packet(to, m)), to, m);
  }

  lemma GoProposeReply(s: System, n: nat, t: nat, strict: bool, to: nat, m: Msg) returns (s': System)
    requires Cell(s, n, t, strict) && to < n && m.IsProposeResponse() && Packet(to, m) in s.net
    ensures var (p, out) := s.ps[to].OnProposeResponse(Config(to, n, 0), m, t);
            && Cell(s', n, t, strict) && s'.ps == s.ps[to := p] && s'.acs == s.acs && s'.ls == s.ls
            && Kept(s.net, s'.net, Packet(to, m)) && s'.h.asked == s.h.asked
            && (out.Some? ==> forall j: nat :: j < n ==> Packet(j, out.value) in s'.net)
  {
    CellShaped(s, n, t, strict);
    var e := Receive(Packet(to, m), false);
    s' := Step(s, e);
    StepCell(s, e, n, t, strict);
    ProposeReply(s, to, m, s');
    Emitted(s.net, Packet(to, m), n, s.ps[to].OnProposeResponse(s.configs[to], m, s.Now(to)).1);
  }

  lemma GoLearn(s: System, n: nat, t: nat, strict: bool, to: nat, m: Msg) returns (s': System)
    requires Cell(s, n, t, strict) && to < n && m.LearnChosen? && Packet(to, m) in s.net
    ensures Cell(s', n, t, strict) && s'.ps == s.ps && s'.acs == s.acs && Kept(s.net, s'.net, Packet(to, m))
    ensures s'.ls == s.ls[to := s.ls[to].OnLearnChosen(to, m.owner, m.duration, m.localExpire, t)]
  {
    CellShaped(s, n, t, strict);
    var e := Receive(Packet(to, m), false);
    s' := Step(s, e);
    StepCell(s, e, n, t, strict);
  }

  // ----- rounds in cells of two or three nodes, where two answers are a majority

  const D := MAX_LEASE_TIME
  const FRESH := INIT_ACCEPTOR

  /** Node `node` prepares ballot b, having heard `replies` answers. */
  function Preparing(node: nat, b: nat, replies: nat, received: nat): Proposer {
    Proposer(true, false, b, received, node, 0, 0, b, replies, 0, 0)
  }

  /** ... and proposes it until time `until`. */
  function Proposing(node: nat, b: nat, replies: nat, received: nat, until: nat): Proposer {
    Proposer(false, true, b, received, node, D, until, b, replies, replies, 0)
  }

  /** The proposals other than b in flight stay in flight. */
  ghost predicate KeptProposals(net: multiset<Packet>, net': multiset<Packet>, b: nat) {
    forall q :: q in net && q.msg.ProposeRequest? && q.msg.ballot != b ==> q in net'
  }

  /** Nodes j and k promise ballot b, having accepted nothing. */
  lemma TwoPromise(s: System, n: nat, t: nat, strict: bool, i: nat, j: nat, k: nat, b: nat) returns (s': System)
    requires Cell(s, n, t, strict) && i < n && j < n && k < n && j != k
    requires s.acs[j].promised <= b && s.acs[k].promised <= b && !s.acs[j].accepted && !s.acs[k].accepted
    requires Packet(j, PrepareRequest(i, b, i)) in s.net && Packet(k, PrepareRequest(i, b, i)) in s.net
    ensures Cell(s', n, t, strict) && s'.ls == s.ls && s'.ps == s.ps[j := Raise(s.ps[j], b)][k := Raise(s.ps[k], b)]
    ensures s'.acs == s.acs[j := s.acs[j].(promised := b)][k := s.acs[k].(promised := b)]
    ensures Packet(i, PrepareCurrentlyOpen(j, b)) in s'.net && Packet(i, PrepareCurrentlyOpen(k, b)) in s'.net
    ensures KeptProposals(s.net, s'.net, b) && Key(j, b) in s'.h.asked && Key(k, b) in s'.h.asked
  {
    var u := GoPrepareRequest(s, n, t, strict, j, PrepareRequest(i, b, i));
    s' := GoPrepareRequest(u, n, t, strict, k, PrepareRequest(i, b, i));
  }

  /** Node i counts both promises and proposes. */
  lemma TwoHeard(s: System, n: nat, t: nat, strict: bool, i: nat, j: nat, k: nat, b: nat) returns (s': System)
    requires Cell(s, n, t, strict) && 2 <= n <= 3 && i < n && j != k && s.ps[i] == Preparing(i, b, 0, 0)
    requires Packet(i, PrepareCurrentlyOpen(j, b)) in s.net && Packet(i, PrepareCurrentlyOpen(k, b)) in s.net
    ensures Cell(s', n, t, strict) && s'.acs == s.acs && s'.ls == s.ls && s'.ps == s.ps[i := Proposing(i, b, 0, 0, D + t)]
    ensures forall x: nat :: x < n ==> Packet(x, ProposeRequest(i, b, i, D)) in s'.net
    ensures KeptProposals(s.net, s'.net, b) && s'.h.asked == s.h.asked
  {
    var u := GoPrepareReply(s, n, t, strict, i, PrepareCurrentlyOpen(j, b));
    assert u.ps[i] == Preparing(i, b, 1, 0);
    s' := GoPrepareReply(u, n, t, strict, i, PrepareCurrentlyOpen(k, b));
    assert s'.ps[i] == Proposing(i, b, 0, 0, D + t);
  }

  function Accepting(a: Acceptor, b: nat, owner: nat, t: nat): Acceptor { Acceptor(a.promised, true, b, owner, D, D + t) }

  /** Nodes j and k accept the proposal b of node i. */
  lemma TwoAccept(s: System, n: nat, t: nat, strict: bool, i: nat, j: nat, k: nat, b: nat) returns (s': System)
    requires Cell(s, n, t, strict) && i < n && j < n && k < n && j != k
    requires s.acs[j].promised <= b && s.acs[k].promised <= b
    requires Packet(j, ProposeRequest(i, b, i, D)) in s.net && Packet(k, ProposeRequest(i, b, i, D)) in s.net
    requires strict ==> Key(j, b) in s.h.asked && Key(k, b) in s.h.asked
    ensures Cell(s', n, t, strict) && s'.ls == s.ls && s'.ps == s.ps[j := Raise(s.ps[j], b)][k := Raise(s.ps[k], b)]
    ensures s'.acs == s.acs[j := Accepting(s.acs[j], b, i, t)][k := Accepting(s.acs[k], b, i, t)]
    ensures Packet(i, ProposeAccepted(j, b)) in s'.net && Packet(i, ProposeAccepted(k, b)) in s'.net
    ensures KeptProposals(s.net, s'.net, b)
  {
    var u := GoProposeRequest(s, n, t, strict, j, ProposeRequest(i, b, i, D));
    s' := GoProposeRequest(u, n, t, strict, k, ProposeRequest(i, b, i, D));
  }

  /** Node i counts both acceptances and learns that it has the lease. */
  lemma TwoCount(s: System, n: nat, t: nat, strict: bool, i: nat, j: nat, k: nat, b: nat, r: nat) returns (s': System)
    requires Cell(s, n, t, strict) && 2 <= n <= 3 && i < n && j != k && s.ps[i] == Proposing(i, b, 0, r, D + t)
    requires Packet(i, ProposeAccepted(j, b)) in s.net && Packet(i, ProposeAccepted(k, b)) in s.net
    ensures Cell(s', n, t, strict) && s'.acs == s.acs && s'.ls == s.ls[i := s.ls[i].OnLearnChosen(i, i, D, D + t, t)]
    ensures s'.ps == s.ps[i := Proposing(i, b, 0, r, D + t).(proposing := false)]
    ensures KeptProposals(s.net, s'.net, b)
  {
    var u := GoProposeReply(s, n, t, strict, i, ProposeAccepted(j, b));
    assert u.ps[i] == Proposing(i, b, 1, r, D + t);
    var v := GoProposeReply(u, n, t, strict, i, ProposeAccepted(k, b));
    assert v.ps[i] == Proposing(i, b, 0, r, D + t).(proposing := false);
    s' := GoLearn(v, n, t, strict, i, LearnChosen(i, i, D, D + t));
  }

  /** Node i starts a round. */
  lemma Asks(s: System, n: nat, t: nat, strict: bool, i: nat, b: nat) returns (s': System)
    requires Cell(s, n, t, strict) && i < n && s.ps[i].StartPreparing(Config(i, n, 0)) == Preparing(i, b, 0, 0)
    ensures Cell(s', n, t, strict) && s'.ps == s.ps[i := Preparing(i, b, 0, 0)] && s'.acs == s.acs && s'.ls == s.ls
    ensures forall x: nat :: x < n ==> Packet(x, PrepareRequest(i, b, i)) in s'.net
    ensures KeptProposals(s.net, s'.net, b)
  {
    s' := GoAcquire(s, n, t, strict, i);
  }

  /** Nodes j and k promise b to node i, which proposes it. */
  lemma TwoPropose(s: System, n: nat, t: nat, strict: bool, i: nat, j: nat, k: nat, b: nat) returns (s': System)
    requires Cell(s, n, t, strict) && 2 <= n <= 3 && i < n && j < n && k < n && j != k && s.ps[i] == Preparing(i, b, 0, 0)
    requires s.acs[j].promised <= b && s.acs[k].promised <= b && !s.acs[j].accepted && !s.acs[k].accepted
    requires Packet(j, PrepareRequest(i, b, i)) in s.net && Packet(k, PrepareRequest(i, b, i)) in s.net
    ensures Cell(s', n, t, strict) && s'.ls == s.ls
    ensures s'.ps == s.ps[j := Raise(s.ps[j], b)][k := Raise(s.ps[k], b)][i := Proposing(i, b, 0, 0, D + t)]
    ensures s'.acs == s.acs[j := s.acs[j].(promised := b)][k := s.acs[k].(promised := b)]
    ensures forall x: nat :: x < n ==> Packet(x, ProposeRequest(i, b, i, D)) in s'.net
    ensures KeptProposals(s.net, s'.net, b) && Key(j, b) in s'.h.asked && Key(k, b) in s'.h.asked
  {
    var u := TwoPromise(s, n, t, strict, i, j, k, b);
    assert u.ps[i] == Preparing(i, b, 0, 0);
    s' := TwoHeard(u, n, t, strict, i, j, k, b);
  }

  /** Nodes j and k accept it, and node i has the lease. */
  lemma TwoLease(s: System, n: nat, t: nat, strict: bool, i: nat, j: nat, k: nat, b: nat, r: nat) returns (s': System)
    requires Cell(s, n, t, strict) && 2 <= n <= 3 && i < n && j < n && k < n && j != k && s.ps[i] == Proposing(i, b, 0, r, D + t)
    requires s.acs[j].promised <= b && s.acs[k].promised <= b
    requires Packet(j, ProposeRequest(i, b, i, D)) in s.net && Packet(k, ProposeRequest(i, b, i, D)) in s.net
    requires strict ==> Key(j, b) in s.h.asked && Key(k, b) in s.h.asked
    ensures Cell(s', n, t, strict) && s'.ls == s.ls[i := s.ls[i].OnLearnChosen(i, i, D, D + t, t)]
    ensures s'.acs == s.acs[j := Accepting(s.acs[j], b, i, t)][k := Accepting(s.acs[k], b, i, t)]
    ensures forall x: nat :: x < n && x != i ==> s'.ps[x] == if x == j || x == k then Raise(s.ps[x], b) else s.ps[x]
    ensures KeptProposals(s.net, s'.net, b)
  {
    var u := TwoAccept(s, n, t, strict, i, j, k, b);
    assert u.ps[i] == Proposing(i, b, 0, r, D + t);
    s' := TwoCount(u, n, t, strict, i, j, k, b, r);
  }

  // ----- without the delivery premise

  const A := 0x100_0000       // the first ballot of node 0
  const B := 0x100_0001       // the first ballot of node 1
  const C := 0x200_0000       // the second ballot of node 0

  /** The states of three nodes. */
  ghost predicate Three(s: System, p: Proposer, q: Proposer, r: Proposer, a: Acceptor, b: Acceptor, c: Acceptor) {
    && Cell(s, 3, 0, false) && s.ps[0] == p && s.ps[1] == q && s.ps[2] == r && s.acs[0] == a && s.acs[1] == b && s.acs[2] == c
  }

  ghost predicate NoneLearned(s: System) { |s.ls| == 3 && s.ls[0] == s.ls[1] == s.ls[2] == INIT_LEARNER }

  /** Node 0 asks for promises of A. */
  lemma Phase0() returns (s: System)
    ensures Three(s, Preparing(0, A, 0, 0), INIT_PROPOSER, INIT_PROPOSER, FRESH, FRESH, FRESH) && NoneLearned(s)
    ensures forall x: nat :: x < 3 ==> Packet(x, PrepareRequest(0, A, 0)) in s.net
  {
    s := GoInit(3, false);
    s := Asks(s, 3, 0, false, 0, A);
  }

  /** Nodes 0 and 2 promise it, and node 0 proposes it. */
  lemma Phase1() returns (s: System)
    ensures Three(s, Proposing(0, A, 0, 0, D), INIT_PROPOSER, INIT_PROPOSER.(highest := A),
                  FRESH.(promised := A), FRESH, FRESH.(promised := A))
    ensures NoneLearned(s) && Packet(0, ProposeRequest(0, A, 0, D)) in s.net
  {
    s := Phase0();
    s := TwoPropose(s, 3, 0, false, 0, 0, 2, A);
  }

  /** Node 1 asks for promises of B. */
  lemma Phase2() returns (s: System)
    ensures Three(s, Proposing(0, A, 0, 0, D), Preparing(1, B, 0, 0), INIT_PROPOSER.(highest := A),
                  FRESH.(promised := A), FRESH, FRESH.(promised := A))
    ensures NoneLearned(s) && Packet(0, ProposeRequest(0, A, 0, D)) in s.net
    ensures forall x: nat :: x < 3 ==> Packet(x, PrepareRequest(1, B, 1)) in s.net
  {
    s := Phase1();
    s := Asks(s, 3, 0, false, 1, B);
  }

  /** Nodes 1 and 2 promise it, and node 1 proposes it. */
  lemma Phase3() returns (s: System)
    ensures Three(s, Proposing(0, A, 0, 0, D), Proposing(1, B, 0, 0, D), INIT_PROPOSER.(highest := B),
                  FRESH.(promised := A), FRESH.(promised := B), FRESH.(promised := B))
    ensures NoneLearned(s) && Packet(0, ProposeRequest(0, A, 0, D)) in s.net
    ensures forall x: nat :: x < 3 ==> Packet(x, ProposeRequest(1, B, 1, D)) in s.net
  {
    s := Phase2();
    s := TwoPropose(s, 3, 0, false, 1, 1, 2, B);
  }

  /** Node 1 alone holds the lease. */
  ghost predicate FirstLease(s: System) { |s.ls| == 3 && s.ls[0] == s.ls[2] == INIT_LEARNER && s.ls[1] == Learner(true, 1, D, 0) }

  /** Node 0, never asked about B, accepts it along with node 1: node 1 holds the lease. */
  lemma Phase4() returns (s: System)
    ensures Cell(s, 3, 0, false) && FirstLease(s)
    ensures s.ps[0] == Proposing(0, A, 0, 0, D).(highest := B)
    ensures s.acs[0] == Acceptor(A, true, B, 1, D, D) && s.acs[2] == FRESH.(promised := B)
    ensures Packet(0, ProposeRequest(0, A, 0, D)) in s.net
  {
    s := Phase3();
    s := TwoLease(s, 3, 0, false, 1, 0, 1, B, 0);
  }

  /** The late proposal of A makes node 0 go back from B to A; then it asks for promises of C ... */
  lemma Phase5() returns (s: System)
    ensures Cell(s, 3, 0, false) && FirstLease(s) && s.ps[0].ballot == C
    ensures s.ps[0] == Proposing(0, A, 0, 0, D).(highest := B).StartPreparing(Config(0, 3, 0))
    ensures s.acs[0] == Acceptor(A, true, A, 0, D, D) && s.acs[2] == FRESH.(promised := B)
    ensures forall x: nat :: x < 3 ==> Packet(x, PrepareRequest(0, C, 0)) in s.net
  {
    s := Phase4();
    s := GoProposeRequest(s, 3, 0, false, 0, ProposeRequest(0, A, 0, D));
    s := GoAcquire(s, 3, 0, false, 0);
  }

  /** ... hears of A, which node 0 takes for its own lease, and of nothing else ... */
  lemma Phase6() returns (s: System)
    ensures Cell(s, 3, 0, false) && FirstLease(s)
    ensures s.ps[0] == Raise(Proposing(0, A, 0, 0, D).(highest := B).StartPreparing(Config(0, 3, 0)), C) && s.ps[0].ballot == C
    ensures s.acs[0] == Acceptor(C, true, A, 0, D, D) && s.acs[2] == FRESH.(promised := C)
    ensures Packet(0, PreparePreviouslyAccepted(0, C, A, 0, D)) in s.net && Packet(0, PrepareCurrentlyOpen(2, C)) in s.net
  {
    s := Phase5();
    s := GoPrepareRequest(s, 3, 0, false, 0, PrepareRequest(0, C, 0));
    s := GoPrepareRequest(s, 3, 0, false, 2, PrepareRequest(0, C, 0));
  }

  /** ... and proposes C. */
  lemma Phase7() returns (s: System)
    ensures Cell(s, 3, 0, false) && FirstLease(s) && s.ps[0] == Proposing(0, C, 0, A, D)
    ensures s.acs[0] == Acceptor(C, true, A, 0, D, D) && s.acs[2] == FRESH.(promised := C)
    ensures forall x: nat :: x < 3 ==> Packet(x, ProposeRequest(0, C, 0, D)) in s.net
  {
    s := Phase6();
    s := GoPrepareReply(s, 3, 0, false, 0, PreparePreviouslyAccepted(0, C, A, 0, D));
    s := GoPrepareReply(s, 3, 0, false, 0, PrepareCurrentlyOpen(2, C));
  }

  /** Without the delivery premise, two nodes can answer true to IsLeaseOwner at the same time, before the last tick. */
  lemma LooseRunsShareTheLease() returns (s: System)
    ensures Reachable(s, false) && s.Shaped() && |s.ls| == 3 && Owns(s, 0) && Owns(s, 1)
    ensures s.ls[0].expire > s.Now(0) && s.ls[1].expire > s.Now(1)
  {
    s := Phase7();
    s := TwoLease(s, 3, 0, false, 0, 0, 2, C, A);
    CellShaped(s, 3, 0, false);
  }

  // ----- on the last tick: two nodes, with the delivery premise

  const E := 0x200_0001       // the ballot of node 1 after it has seen A

  /** Node 0 holds the lease until D, by the acceptance of both nodes. */
  lemma Leased() returns (s: System)
    ensures Cell(s, 2, 0, true)
    ensures s.ps[1] == INIT_PROPOSER.(highest := A) && s.ls == [Learner(true, 0, D, 0), INIT_LEARNER]
    ensures s.acs == [Acceptor(A, true, A, 0, D, D), Acceptor(A, true, A, 0, D, D)]
  {
    s := GoInit(2, true);
    s := Asks(s, 2, 0, true, 0, A);
    s := TwoPropose(s, 2, 0, true, 0, 0, 1, A);
    s := TwoLease(s, 2, 0, true, 0, 0, 1, A, 0);
  }

  /** On tick D both acceptors forget, and node 1 asks for promises. */
  lemma Forgotten() returns (s: System)
    ensures Cell(s, 2, D, true)
    ensures s.ps[1] == Preparing(1, E, 0, 0) && s.ls == [Learner(true, 0, D, 0), INIT_LEARNER]
    ensures s.acs == [FRESH.(promised := A), FRESH.(promised := A)]
    ensures forall x: nat :: x < 2 ==> Packet(x, PrepareRequest(1, E, 1)) in s.net
  {
    s := Leased();
    s := GoTick(s, 2, 0, true, D);
    s := GoTimer(s, 2, D, true, 0);
    s := GoTimer(s, 2, D, true, 1);
    s := Asks(s, 2, D, true, 1, E);
  }

  /** On the last tick of a lease two nodes can answer true, even in a strict run: timers fire when the lease is over by the
      acceptors' reckoning, while its owner still counts that tick. */
  lemma LastTickIsShared() returns (s: System)
    ensures Reachable(s, true) && s.Shaped() && |s.ls| == 2 && Owns(s, 0) && Owns(s, 1)
    ensures s.ls[0].expire == s.Now(0)
  {
    s := Forgotten();
    s := TwoPropose(s, 2, D, true, 1, 0, 1, E);
    s := TwoLease(s, 2, D, true, 1, 0, 1, E, 0);
    CellShaped(s, 2, D, true);
  }
}
