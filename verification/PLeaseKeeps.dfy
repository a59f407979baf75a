/** Every step keeps the invariant. */
module PLeaseKeeps {
  import opened PLease
  import opened PLeaseSystem
  import opened PLeaseInv
  import opened PLeaseExtends

  // ----- steps that leave the history alone

  lemma TickKeeps(s: System, ticks: nat)
    requires Inv(s)
    ensures Inv(s.(clock := s.clock + ticks))
  {
    var s' := s.(clock := s.clock + ticks);
    var h, n := s.h, |s.ps|;
    forall i: nat, c: nat | Promised(h, i, c) ensures PromiseOk(h, n, s'.clock, i, c) { assert PromiseOk(h, n, s.clock, i, c); }
    forall c: nat | Proposed(h, c) ensures ProposalOk(h, n, s'.clock, c) { assert ProposalOk(h, n, s.clock, c); }
    forall i: nat | i < n ensures NodeOk(s', i) { assert NodeOk(s, i); }
  }

  lemma TakeKeeps(s: System, p: Packet)
    requires Inv(s)
    ensures Inv(Take(s, p))
  {
    forall i: nat | i < |s.ps| ensures NodeOk(Take(s, p), i) { assert NodeOk(s, i); }
  }

  /** A change of the nodes' states alone. */
  lemma NodesKeep(s: System, s': System)
    requires Inv(s) && s' == s.(ps := s'.ps, acs := s'.acs, ls := s'.ls, news := s'.news) && s'.Shaped()
    requires forall i: nat :: i < |s.ps| ==> s.ps[i].highest <= s'.ps[i].highest
    requires forall i: nat :: i < |s.ps| ==> NodeOk(s', i)
    ensures Inv(s')
  {
    BallotsKeep(s.h, s.h, s.ps, s'.ps);
  }

  lemma BallotsKeep(h: History, h': History, ps: seq<Proposer>, ps': seq<Proposer>)
    requires BallotsOk(h, ps) && h'.issued == h.issued && |ps'| == |ps|
    requires forall i: nat :: i < |ps| ==> ps[i].highest <= ps'[i].highest
    ensures BallotsOk(h', ps')
  {
    forall b: nat | Issued(h', b) ensures BallotOk(ps', b) { assert Issued(h, b); assert BallotOk(ps, b); }
  }

  lemma StopKeeps(s: System, i: nat)
    requires Inv(s) && i < |s.ps|
    ensures Inv(s.(ps := s.ps[i := s.ps[i].StopAcquireLease()]))
  {
    var s' := s.(ps := s.ps[i := s.ps[i].StopAcquireLease()]);
    forall j: nat | j < |s.ps| ensures NodeOk(s', j) { assert NodeOk(s, j); }
    NodesKeep(s, s');
  }

  lemma NoticeKeeps(s: System, i: nat, ballot: nat)
    requires Inv(s) && i < |s.ps|
    ensures Inv(Notice(s, i, ballot))
  {
    var s' := Notice(s, i, ballot);
    forall j: nat | j < |s.ps| ensures NodeOk(s', j) { assert NodeOk(s, j); }
    NodesKeep(s, s');
  }

  lemma AcceptorTimerKeeps(s: System, i: nat)
    requires Inv(s) && i < |s.ps| && s.acs[i].accepted && s.acs[i].acceptedExpire <= s.Now(i)
    ensures Inv(TimeOut(s, i))
  {
    var s' := TimeOut(s, i);
    var h, h', n := s.h, s'.h, |s.ps|;
    RecordsKept(h, h', n);
    BallotsKeep(h, h', s.ps, s'.ps);
    forall j: nat | j < n ensures NodeOk(s', j) { TimeOutNodes(s, i, j); }
    forall p | p in s'.net ensures Untouched(h, h', p) { NothingTouched(h, h', p); }
    Assemble(s, s');
  }

  lemma RecordsKept(h: History, h': History, n: nat)
    requires RecordsOk(h, n) && (h' == h || h' == h.(onTick := h'.onTick)) && h.onTick <= h'.onTick
    ensures RecordsOk(h', n) && Extends(h, h')
  {
    forall j: nat, c: nat ensures RecordOk(h', n, j, c) { RecordAt(h, n, j, c); }
    RecordsFrom(h', n);
  }

  lemma TimeOutNodes(s: System, i: nat, j: nat)
    requires Inv(s) && i < |s.ps| && j < |s.ps| && s.acs[i].accepted && s.acs[i].acceptedExpire <= s.Now(i)
    requires RecordsOk(TimeOut(s, i).h, |s.ps|) && Extends(s.h, TimeOut(s, i).h)
    ensures NodeOk(TimeOut(s, i), j)
  {
    var s' := TimeOut(s, i);
    var h, h', n := s.h, s'.h, |s.ps|;
    assert NodeOk(s, j);
    LearnerExtends(h, h', n, s.offsets[j], s.ls[j], j);
    ProposerExtends(h, h', n, s.offsets[j], s.ps[j], j);
    TimeOutAcceptor(h, h', n, s.clock, s.offsets[j], s.acs[j], j, i == j);
  }

  /** An acceptor that may have timed out. */
  lemma TimeOutAcceptor(h: History, h': History, n: nat, clock: nat, offset: nat, a: Acceptor, j: nat, fires: bool)
    requires RecordsOk(h, n) && RecordsOk(h', n) && Extends(h, h') && AcceptorOk(h, n, clock, offset, a, j)
    requires h' == h.(onTick := h'.onTick)
    requires fires ==> a.accepted && a.acceptedExpire <= clock + offset && (a.acceptedExpire == clock + offset ==> clock in h'.onTick)
    ensures AcceptorOk(h', n, clock, offset, if fires then a.OnLeaseTimeout() else a, j)
  {
    AcceptorExtends(h, h', n, clock, offset, a, j);
  }

  lemma LearnerTimerKeeps(s: System, i: nat)
    requires Inv(s) && i < |s.ps|
    ensures Inv(s.(ls := s.ls[i := s.ls[i].OnLeaseTimeout()]))
  {
    var s' := s.(ls := s.ls[i := s.ls[i].OnLeaseTimeout()]);
    forall j: nat | j < |s.ps| ensures NodeOk(s', j) { assert NodeOk(s, j); }
    NodesKeep(s, s');
  }

  lemma CheckLeaseKeeps(s: System, i: nat)
    requires Inv(s) && i < |s.ps|
    ensures Inv(s.(ls := s.ls[i := s.ls[i].CheckLease(s.Now(i))]))
  {
    var s' := s.(ls := s.ls[i := s.ls[i].CheckLease(s.Now(i))]);
    forall j: nat | j < |s.ps| ensures NodeOk(s', j) { assert NodeOk(s, j); }
    NodesKeep(s, s');
  }

  lemma LearnKeeps(s: System, i: nat, m: Msg)
    requires Inv(s) && i < |s.ps| && m.LearnChosen? && PacketOk(s.h, |s.ps|, s.offsets, Packet(i, m))
    ensures Inv(DeliverLearn(s, i, m))
  {
    var s' := DeliverLearn(s, i, m);
    forall j: nat | j < |s.ps| ensures NodeOk(s', j) { assert NodeOk(s, j); }
    NodesKeep(s, s');
  }

  // ----- steps that add to the history

  /** The invariant after a step that added to the history, from its parts. */
  lemma Assemble(s: System, s': System)
    requires Inv(s) && s'.Shaped() && |s'.ps| == |s.ps| && s'.offsets == s.offsets && s'.clock == s.clock
    requires Extends(s.h, s'.h) && RecordsOk(s'.h, |s.ps|) && BallotsOk(s'.h, s'.ps)
    requires forall i: nat, c: nat, b: nat :: Promised(s.h, i, c) && Voted(s'.h, i, b) && b < c ==> Voted(s.h, i, b)
    requires forall i: nat, c: nat :: Promised(s'.h, i, c) && !Promised(s.h, i, c) ==> PromiseOk(s'.h, |s.ps|, s.clock, i, c)
    requires forall c: nat :: Proposed(s'.h, c) && !Proposed(s.h, c) ==> ProposalOk(s'.h, |s.ps|, s.clock, c)
    requires forall p :: p in s'.net && p in s.net ==> Untouched(s.h, s'.h, p)
    requires forall p :: p in s'.net && p !in s.net ==> PacketOk(s'.h, |s.ps|, s.offsets, p)
    requires forall p :: p in s'.net && Single(p.msg) ==> s'.net[p] == 1
    requires forall i: nat :: i < |s.ps| ==> NodeOk(s', i)
    ensures Inv(s')
  {
    var n := |s.ps|;
    PastExtends(s.h, s'.h, n, s.clock);
    forall p | p in s'.net ensures PacketOk(s'.h, n, s.offsets, p) {
      if p in s.net { PacketExtends(s.h, s'.h, n, s.offsets, p); }
    }
  }

  lemma StartRecords(s: System, i: nat)
    requires Inv(s) && i < |s.ps|
    ensures var b := Start(s, i).ps[i].ballot;
            OwnerOf(b) == i && 0 < b && !Issued(s.h, b) && !Proposed(s.h, b) && At(s.h.heard, b) == {}
            && forall j: nat :: !Asked(s.h, j, b)
  {
    var b := Start(s, i).ps[i].ballot;
    assert Issued(s.h, b) ==> BallotOk(s.ps, b);
    forall a: nat ensures a !in At(s.h.heard, b) { RecordAt(s.h, |s.ps|, a, b); }
    assert At(s.h.heard, b) == {};
  }

  lemma StartKeeps(s: System, i: nat)
    requires Inv(s) && i < |s.ps|
    ensures Inv(Start(s, i))
  {
    var s' := Start(s, i);
    var h, h', n := s.h, s'.h, |s.ps|;
    StartRecords(s, i);
    forall j: nat, b: nat ensures RecordOk(h', n, j, b) { RecordAt(h, n, j, b); }
    RecordsFrom(h', n);
    forall b: nat | Issued(h', b) ensures BallotOk(s'.ps, b) {
      if Issued(h, b) { assert BallotOk(s.ps, b); }
    }
    forall j: nat | j < n ensures NodeOk(s', j) {
      assert NodeOk(s, j);
      AcceptorExtends(h, h', n, s.clock, s.offsets[j], s.acs[j], j);
      LearnerExtends(h, h', n, s.offsets[j], s.ls[j], j);
      if j != i { ProposerExtends(h, h', n, s.offsets[j], s.ps[j], j); }
    }
    forall p | p in s'.net && p !in s.net ensures PacketOk(h', n, s.offsets, p) {
      assert p.msg == PrepareRequest(i, s'.ps[i].ballot, i);
      assert !Asked(h, p.dest, s'.ps[i].ballot);
    }
    Assemble(s, s');
  }

  // ----- starting to propose

  /** On the answers gathered, the proposer's own ballots are on top. */
  lemma GatheredOnTop(h: History, p: Proposer, i: nat)
    requires Gathered(h, p, i) && p.owner == i
    ensures OwnOnTop(h, At(h.heard, p.ballot), p.ballot, i)
  {
    var q := At(h.heard, p.ballot);
    forall a: nat | a in q && Reported(h, a, p.ballot) ensures Topped(h, q, p.ballot, i, ReportedBallot(h, a, p.ballot)) {
      assert Topped(h, q, p.ballot, i, p.highestReceived);
    }
  }

  ghost function WithProposal(h: History, b: nat, clock: nat): History {
    h.(proposals := h.proposals[b := Proposal(clock, At(h.heard, b))])
  }

  lemma NewProposalExtends(h: History, b: nat, clock: nat)
    requires !Proposed(h, b)
    ensures Extends(h, WithProposal(h, b, clock))
  {
  }

  lemma HeardInTime(h: History, n: nat, clock: nat, b: nat)
    requires PastOk(h, n, clock)
    ensures forall a: nat :: a in At(h.heard, b) ==> a < n && Promised(h, a, b) && PromisedAt(h, a, b) <= clock
  {
    forall a: nat | a in At(h.heard, b) ensures a < n && Promised(h, a, b) && PromisedAt(h, a, b) <= clock {
      assert Heard(h, a, b);
      RecordAt(h, n, a, b);
      assert PromiseOk(h, n, clock, a, b);
    }
  }

  lemma NewProposalOk(h: History, n: nat, clock: nat, p: Proposer, i: nat)
    requires Gathered(h, p, i) && p.owner == i
    requires OwnerOf(p.ballot) == i && !Proposed(h, p.ballot) && |At(h.heard, p.ballot)| >= n / 2 + 1
    requires forall a: nat :: a in At(h.heard, p.ballot) ==> a < n && Promised(h, a, p.ballot) && PromisedAt(h, a, p.ballot) <= clock
    ensures ProposalOk(WithProposal(h, p.ballot, clock), n, clock, p.ballot)
  {
    var b := p.ballot;
    var h', q := WithProposal(h, b, clock), At(h.heard, b);
    NewProposalExtends(h, b, clock);
    GatheredOnTop(h, p, i);
    forall a: nat | a in q ensures Promised(h', a, b) && PromisedAt(h', a, b) <= clock { assert Promised(h, a, b); }
    forall a: nat | a in q && Reported(h', a, b) ensures Topped(h', q, b, i, ReportedBallot(h', a, b)) {
      assert Reported(h, a, b);
      ToppedExtends(h, h', q, b, i, ReportedBallot(h, a, b));
    }
  }

  lemma NewProposalRecords(h: History, n: nat, clock: nat, b: nat)
    requires RecordsOk(h, n) && Issued(h, b) && !Proposed(h, b)
    ensures RecordsOk(WithProposal(h, b, clock), n) && At(h.counted, b) == {} && forall j: nat :: !Offered(h, j, b)
  {
    forall j: nat, c: nat ensures RecordOk(WithProposal(h, b, clock), n, j, c) { RecordAt(h, n, j, c); }
    RecordsFrom(WithProposal(h, b, clock), n);
    forall a: nat ensures a !in At(h.counted, b) { RecordAt(h, n, a, b); }
    assert At(h.counted, b) == {};
  }

  lemma ProposeKeeps(s: System, i: nat)
    requires Inv(s) && i < |s.ps| && s.ps[i].preparing && s.ps[i].PrepareWon(s.configs[i])
    ensures Inv(Propose(s, i))
  {
    assert NodeOk(s, i);
    if s.ps[i].owner != i {
      StopKeeps(s, i);
      assert s.ps[i].StopAcquireLease() == s.ps[i].StartProposing(s.configs[i], s.Now(i));
    } else {
      ProposeOwnKeeps(s, i);
    }
  }

  /** The nodes after node i has proposed ballot b. */
  lemma ProposeNodes(s: System, i: nat, j: nat)
    requires Inv(s) && i < |s.ps| && s.ps[i].preparing && s.ps[i].owner == i && j < |s.ps|
    requires RecordsOk(Propose(s, i).h, |s.ps|) && Extends(s.h, Propose(s, i).h) && At(s.h.counted, s.ps[i].ballot) == {}
    ensures NodeOk(Propose(s, i), j)
  {
    var s' := Propose(s, i);
    var h, h', n := s.h, s'.h, |s.ps|;
    assert NodeOk(s, i) && NodeOk(s, j);
    AcceptorExtends(h, h', n, s.clock, s.offsets[j], s.acs[j], j);
    LearnerExtends(h, h', n, s.offsets[j], s.ls[j], j);
    if j != i { ProposerExtends(h, h', n, s.offsets[j], s.ps[j], j); }
  }

  lemma NewProposalPast(h: History, n: nat, clock: nat, p: Proposer, i: nat)
    requires PastOk(h, n, clock) && Gathered(h, p, i) && p.owner == i
    requires OwnerOf(p.ballot) == i && Issued(h, p.ballot) && !Proposed(h, p.ballot) && |At(h.heard, p.ballot)| >= n / 2 + 1
    ensures var h', b := WithProposal(h, p.ballot, clock), p.ballot;
            && Extends(h, h') && RecordsOk(h', n) && ProposalOk(h', n, clock, b)
            && At(h.counted, b) == {} && forall j: nat :: !Offered(h, j, b)
  {
    HeardInTime(h, n, clock, p.ballot);
    NewProposalExtends(h, p.ballot, clock);
    NewProposalOk(h, n, clock, p, i);
    NewProposalRecords(h, n, clock, p.ballot);
  }

  lemma ProposeOwnKeeps(s: System, i: nat)
    requires Inv(s) && i < |s.ps| && s.ps[i].preparing && s.ps[i].PrepareWon(s.configs[i]) && s.ps[i].owner == i
    ensures Inv(Propose(s, i))
  {
    var s' := Propose(s, i);
    var b, h, h', n := s.ps[i].ballot, s.h, s'.h, |s.ps|;
    assert NodeOk(s, i);
    NewProposalPast(h, n, s.clock, s.ps[i], i);
    BallotsKeep(h, h', s.ps, s'.ps);
    forall j: nat | j < n ensures NodeOk(s', j) { ProposeNodes(s, i, j); }
    ProposePackets(s, i, b);
    forall p | p in s'.net && p in s.net ensures Untouched(h, h', p) { NothingTouched(h, h', p); }
    Assemble(s, s');
  }

  lemma ProposePackets(s: System, i: nat, b: nat)
    requires Inv(s) && i < |s.ps| && b == s.ps[i].ballot && s.ps[i].owner == i && OwnerOf(b) == i && !Proposed(s.h, b)
    requires forall j: nat :: !Offered(s.h, j, b)
    ensures var s' := Propose(s, i);
      && (forall p :: p in s'.net && p !in s.net ==> PacketOk(s'.h, |s.ps|, s.offsets, p))
      && (forall p :: p in s'.net && Single(p.msg) ==> s'.net[p] == 1)
  {
    var s' := Propose(s, i);
    var m := ProposeRequest(i, b, i, MAX_LEASE_TIME);
    assert s'.net == s.net + ToAll(|s.ps|, m);
    forall p | p in s'.net && p !in s.net ensures PacketOk(s'.h, |s.ps|, s.offsets, p) {
      assert p.msg == m;
      assert !Offered(s.h, p.dest, b);
    }
    forall p | p in s.net ensures p.msg != m { assert PacketOk(s.h, |s.ps|, s.offsets, p); }
  }
}
