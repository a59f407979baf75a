/** The answers of acceptors and the counting of them by proposers keep the invariant. */
module PLeaseAnswers {
  import opened PLease
  import opened PLeaseSystem
  import opened PLeaseInv
  import opened PLeaseExtends
  import opened PLeaseKeeps

  // ----- an acceptor answers a prepare request

  /** Forgetting a lapsed acceptance loses nothing that still counts. */
  lemma RefreshKeeps(h: History, n: nat, clock: nat, offset: nat, a: Acceptor, i: nat)
    requires RecordsOk(h, n) && AcceptorOk(h, n, clock, offset, a, i)
    ensures AcceptorOk(h, n, clock, offset, a.Refresh(clock + offset), i)
    ensures a.Refresh(clock + offset).promised == a.promised
  {
  }

  /** The history after node i has answered the prepare request of ballot b. */
  ghost function WithAnswer(h: History, i: nat, b: nat, reply: Msg, clock: nat): History {
    h.(asked := h.asked + {Key(i, b)},
       promises := if reply.PrepareRejected? then h.promises else h.promises[Key(i, b) := Promise(reply, clock)])
  }

  lemma AnswerRecords(h: History, n: nat, i: nat, b: nat, reply: Msg, clock: nat)
    requires RecordsOk(h, n) && i < n && Issued(h, b) && !Asked(h, i, b)
    ensures var h' := WithAnswer(h, i, b, reply, clock);
            Extends(h, h') && RecordsOk(h', n) && !Promised(h, i, b) && !Heard(h, i, b)
  {
    var h' := WithAnswer(h, i, b, reply, clock);
    RecordAt(h, n, i, b);
    forall j: nat, c: nat ensures RecordOk(h', n, j, c) { RecordAt(h, n, j, c); }
    RecordsFrom(h', n);
  }

  /** The promise just given reports the newest running vote. */
  lemma NewPromiseOk(h: History, n: nat, clock: nat, offset: nat, a: Acceptor, i: nat, b: nat)
    requires PastOk(h, n, clock) && AcceptorOk(h, n, clock, offset, a, i) && a.promised <= b
    requires i < n && Issued(h, b) && !Asked(h, i, b)
    ensures var reply := if !a.accepted then PrepareCurrentlyOpen(i, b)
                         else PreparePreviouslyAccepted(i, b, a.acceptedBallot, a.acceptedOwner, a.acceptedDuration);
            var h' := WithAnswer(h, i, b, reply, clock);
            RecordsOk(h', n) && Promised(h', i, b) && PromiseOk(h', n, clock, i, b)
  {
    var reply := if !a.accepted then PrepareCurrentlyOpen(i, b)
                 else PreparePreviouslyAccepted(i, b, a.acceptedBallot, a.acceptedOwner, a.acceptedDuration);
    var h' := WithAnswer(h, i, b, reply, clock);
    AnswerRecords(h, n, i, b, reply, clock);
    if a.accepted {
      var v := a.acceptedBallot;
      RecordAt(h, n, i, v);
      assert ProposalOk(h, n, clock, v);
      assert Asked(h, i, v);
    }
    forall c: nat | Voted(h', i, c) && c < b && Running(h', clock, c)
      ensures reply.PreparePreviouslyAccepted? && c <= reply.acceptedBallot
    {
      assert Voted(h, i, c);
      assert Proposed(h, c);
    }
  }

  lemma AnsweringAcceptor(h: History, n: nat, clock: nat, offset: nat, a: Acceptor, i: nat, b: nat, reply: Msg)
    requires RecordsOk(h, n) && AcceptorOk(h, n, clock, offset, a, i) && i < n && Issued(h, b) && !Asked(h, i, b)
    requires reply.PrepareRejected? <==> b < a.promised
    ensures var h' := WithAnswer(h, i, b, reply, clock);
            RecordsOk(h', n) && AcceptorOk(h', n, clock, offset, if b < a.promised then a else a.(promised := b), i)
  {
    var h' := WithAnswer(h, i, b, reply, clock);
    var a' := if b < a.promised then a else a.(promised := b);
    AnswerRecords(h, n, i, b, reply, clock);
    forall c: nat | Asked(h', i, c) ensures if Promised(h', i, c) then c <= a'.promised else c < a'.promised {
      if c != b {
        assert Asked(h, i, c);
        assert Promised(h', i, c) <==> Promised(h, i, c);
      }
    }
    forall c: nat | Voted(h', i, c) && Running(h', clock, c)
      ensures a'.accepted && c <= a'.acceptedBallot && End(h', c) + offset <= a'.acceptedExpire
    {
      assert Voted(h, i, c);
      assert Proposed(h, c);
    }
  }

  /** A packet other than the request being answered. */
  lemma AnswerTouches(h: History, h': History, i: nat, b: nat, reply: Msg, clock: nat, p: Packet)
    requires h' == WithAnswer(h, i, b, reply, clock)
    requires !(p.dest == i && p.msg.PrepareRequest? && p.msg.ballot == b)
    ensures Untouched(h, h', p)
  {
  }

  lemma AnswerNodes(s: System, i: nat, from: nat, b: nat, j: nat)
    requires Inv(s) && i < |s.ps| && j < |s.ps| && Issued(s.h, b) && !Asked(s.h, i, b)
    requires RecordsOk(AnswerPrepare(s, i, from, b).h, |s.ps|) && Extends(s.h, AnswerPrepare(s, i, from, b).h)
    ensures NodeOk(AnswerPrepare(s, i, from, b), j)
  {
    var s' := AnswerPrepare(s, i, from, b);
    var h, h', n := s.h, s'.h, |s.ps|;
    assert NodeOk(s, j);
    LearnerExtends(h, h', n, s.offsets[j], s.ls[j], j);
    ProposerExtends(h, h', n, s.offsets[j], s.ps[j], j);
    if j == i {
      RefreshKeeps(h, n, s.clock, s.offsets[i], s.acs[i], i);
      var a := s.acs[i].Refresh(s.Now(i));
      AnsweringAcceptor(h, n, s.clock, s.offsets[i], a, i, b, s.acs[i].OnPrepareRequest(i, b, s.Now(i)).1);
    } else {
      AcceptorExtends(h, h', n, s.clock, s.offsets[j], s.acs[j], j);
    }
  }

  lemma AnswerPrepareKeeps(s: System, i: nat, from: nat, b: nat)
    requires Inv(s) && i < |s.ps| && Issued(s.h, b) && from == OwnerOf(b) && !Asked(s.h, i, b)
    requires forall p :: p in s.net ==> !(p.dest == i && p.msg.PrepareRequest? && p.msg.ballot == b)
    ensures Inv(AnswerPrepare(s, i, from, b))
  {
    var s' := AnswerPrepare(s, i, from, b);
    var h, h', n := s.h, s'.h, |s.ps|;
    var reply := s.acs[i].OnPrepareRequest(i, b, s.Now(i)).1;
    AnswerRecords(h, n, i, b, reply, s.clock);
    BallotsKeep(h, h', s.ps, s'.ps);
    forall j: nat | j < n ensures NodeOk(s', j) { AnswerNodes(s, i, from, b, j); }
    forall j: nat, c: nat | Promised(h', j, c) && !Promised(h, j, c) ensures PromiseOk(h', n, s.clock, j, c) {
      assert NodeOk(s, i);
      RefreshKeeps(h, n, s.clock, s.offsets[i], s.acs[i], i);
      NewPromiseOk(h, n, s.clock, s.offsets[i], s.acs[i].Refresh(s.Now(i)), i, b);
    }
    forall p | p in s'.net && p in s.net ensures Untouched(h, h', p) { AnswerTouches(h, h', i, b, reply, s.clock, p); }
    Assemble(s, s');
  }

  // ----- an acceptor answers a propose request

  /** The history after node i has answered the propose request of ballot b. */
  ghost function WithVote(h: History, i: nat, b: nat, yes: bool): History {
    h.(offered := h.offered + {Key(i, b)}, voters := if yes then Join(h.voters, b, i) else h.voters)
  }

  lemma VoteRecords(h: History, n: nat, i: nat, b: nat, yes: bool)
    requires RecordsOk(h, n) && Proposed(h, b) && !Offered(h, i, b) && (yes ==> Promised(h, i, b))
    ensures var h' := WithVote(h, i, b, yes);
            Extends(h, h') && RecordsOk(h', n) && !Voted(h, i, b) && !Counted(h, i, b)
    ensures forall j: nat, c: nat :: Voted(WithVote(h, i, b, yes), j, c) <==> Voted(h, j, c) || (yes && j == i && c == b)
  {
    var h' := WithVote(h, i, b, yes);
    RecordAt(h, n, i, b);
    forall j: nat, c: nat ensures RecordOk(h', n, j, c) { RecordAt(h, n, j, c); }
    RecordsFrom(h', n);
  }

  lemma VotingAcceptor(h: History, n: nat, clock: nat, offset: nat, a: Acceptor, i: nat, b: nat)
    requires PastOk(h, n, clock) && AcceptorOk(h, n, clock, offset, a, i) && a.promised <= b
    requires Proposed(h, b) && !Offered(h, i, b) && Promised(h, i, b)
    ensures var h' := WithVote(h, i, b, true);
            RecordsOk(h', n)
            && AcceptorOk(h', n, clock, offset, Acceptor(a.promised, true, b, OwnerOf(b), MAX_LEASE_TIME, MAX_LEASE_TIME + clock + offset), i)
  {
    var h' := WithVote(h, i, b, true);
    VoteRecords(h, n, i, b, true);
    forall c: nat | Asked(h', i, c) ensures if Promised(h', i, c) then c <= a.promised else c < a.promised {
      assert Asked(h, i, c);
      assert Promised(h', i, c) <==> Promised(h, i, c);
    }
    forall c: nat | Voted(h', i, c) && Running(h', clock, c)
      ensures c <= b && End(h', c) + offset <= MAX_LEASE_TIME + clock + offset
    {
      if c != b {
        assert Voted(h, i, c);
        RecordAt(h, n, i, c);
      }
      assert ProposalOk(h, n, clock, c);
    }
  }

  lemma RefusingAcceptor(h: History, n: nat, clock: nat, offset: nat, a: Acceptor, i: nat, b: nat)
    requires RecordsOk(h, n) && AcceptorOk(h, n, clock, offset, a, i) && Proposed(h, b) && !Offered(h, i, b)
    ensures var h' := WithVote(h, i, b, false);
            RecordsOk(h', n) && AcceptorOk(h', n, clock, offset, a, i)
  {
    VoteRecords(h, n, i, b, false);
    AcceptorExtends(h, WithVote(h, i, b, false), n, clock, offset, a, i);
  }

  lemma VoteTouches(h: History, h': History, i: nat, b: nat, yes: bool, p: Packet)
    requires h' == WithVote(h, i, b, yes)
    requires !(p.dest == i && p.msg.ProposeRequest? && p.msg.ballot == b)
    ensures Untouched(h, h', p)
  {
  }

  /** An acceptor that answered the prepare of a ballot votes for it only if it had promised it. */
  lemma VoteNeedsPromise(h: History, n: nat, clock: nat, offset: nat, a: Acceptor, i: nat, b: nat)
    requires RecordsOk(h, n) && AcceptorOk(h, n, clock, offset, a, i) && Asked(h, i, b) && a.promised <= b
    ensures Promised(h, i, b)
  {
  }

  ghost predicate GoodPropose(h: History, i: nat, m: Msg) {
    m.ProposeRequest? && Proposed(h, m.ballot) && m.node == m.owner == OwnerOf(m.ballot)
    && m.duration == MAX_LEASE_TIME && !Offered(h, i, m.ballot) && Asked(h, i, m.ballot)
  }

  /** The history after the answer, and what it rests on. */
  lemma VotePast(s: System, i: nat, m: Msg)
    requires Inv(s) && i < |s.ps| && GoodPropose(s.h, i, m)
    ensures var yes := s.acs[i].promised <= m.ballot;
            AnswerPropose(s, i, m).h == WithVote(s.h, i, m.ballot, yes) && (yes ==> Promised(s.h, i, m.ballot))
            && Extends(s.h, AnswerPropose(s, i, m).h) && RecordsOk(AnswerPropose(s, i, m).h, |s.ps|)
  {
    var yes := s.acs[i].promised <= m.ballot;
    assert NodeOk(s, i);
    if yes { VoteNeedsPromise(s.h, |s.ps|, s.clock, s.offsets[i], s.acs[i], i, m.ballot); }
    VoteRecords(s.h, |s.ps|, i, m.ballot, yes);
  }

  lemma VoteNodes(s: System, i: nat, m: Msg, j: nat)
    requires Inv(s) && i < |s.ps| && j < |s.ps| && GoodPropose(s.h, i, m)
    requires RecordsOk(AnswerPropose(s, i, m).h, |s.ps|)
    ensures NodeOk(AnswerPropose(s, i, m), j)
  {
    var s' := AnswerPropose(s, i, m);
    var h, h', n, yes := s.h, s'.h, |s.ps|, s.acs[i].promised <= m.ballot;
    VotePast(s, i, m);
    VoteRecords(h, n, i, m.ballot, yes);
    assert NodeOk(s, j);
    LearnerExtends(h, h', n, s.offsets[j], s.ls[j], j);
    ProposerExtends(h, h', n, s.offsets[j], s.ps[j], j);
    if j != i {
      AcceptorExtends(h, h', n, s.clock, s.offsets[j], s.acs[j], j);
    } else {
      RefreshKeeps(h, n, s.clock, s.offsets[i], s.acs[i], i);
      var a := s.acs[i].Refresh(s.Now(i));
      if yes {
        VotingAcceptor(h, n, s.clock, s.offsets[i], a, i, m.ballot);
      } else {
        RefusingAcceptor(h, n, s.clock, s.offsets[i], a, i, m.ballot);
      }
    }
  }

  lemma AnswerProposeKeeps(s: System, i: nat, m: Msg)
    requires Inv(s) && i < |s.ps| && GoodPropose(s.h, i, m)
    requires forall p :: p in s.net ==> !(p.dest == i && p.msg.ProposeRequest? && p.msg.ballot == m.ballot)
    ensures Inv(AnswerPropose(s, i, m))
  {
    var s' := AnswerPropose(s, i, m);
    var b, h, h', n, yes := m.ballot, s.h, s'.h, |s.ps|, s.acs[i].promised <= m.ballot;
    VotePast(s, i, m);
    VoteRecords(h, n, i, b, yes);
    BallotsKeep(h, h', s.ps, s'.ps);
    forall j: nat | j < n ensures NodeOk(s', j) { VoteNodes(s, i, m, j); }
    VoteAbove(s, i, m);
    VotePackets(s, i, m);
    Assemble(s, s');
  }

  /** No vote is added below a promise. */
  lemma VoteAbove(s: System, i: nat, m: Msg)
    requires Inv(s) && i < |s.ps| && GoodPropose(s.h, i, m)
    ensures forall j: nat, c: nat, x: nat :: Promised(s.h, j, c) && Voted(AnswerPropose(s, i, m).h, j, x) && x < c ==> Voted(s.h, j, x)
  {
    var h, h' := s.h, AnswerPropose(s, i, m).h;
    VotePast(s, i, m);
    assert NodeOk(s, i);
    forall j: nat, c: nat, x: nat | Promised(h, j, c) && Voted(h', j, x) && x < c ensures Voted(h, j, x) {
      assert Asked(h, j, c);
    }
  }

  lemma VotePackets(s: System, i: nat, m: Msg)
    requires Inv(s) && i < |s.ps| && GoodPropose(s.h, i, m)
    requires forall p :: p in s.net ==> !(p.dest == i && p.msg.ProposeRequest? && p.msg.ballot == m.ballot)
    ensures var s' := AnswerPropose(s, i, m);
      && (forall p :: p in s'.net && p in s.net ==> Untouched(s.h, s'.h, p))
      && (forall p :: p in s'.net && p !in s.net ==> PacketOk(s'.h, |s.ps|, s.offsets, p))
      && (forall p :: p in s'.net && Single(p.msg) ==> s'.net[p] == 1)
  {
    var s' := AnswerPropose(s, i, m);
    var b, h, h', n, yes := m.ballot, s.h, s'.h, |s.ps|, s.acs[i].promised <= m.ballot;
    var reply := Packet(m.node, if yes then ProposeAccepted(i, b) else ProposeRejected(i, b));
    VotePast(s, i, m);
    VoteRecords(h, n, i, b, yes);
    assert s'.net == s.net + multiset{reply};
    forall p | p in s'.net && p in s.net ensures Untouched(h, h', p) { VoteTouches(h, h', i, b, yes, p); }
    if reply in s.net { assert PacketOk(h, n, s.offsets, reply); }
  }
}
