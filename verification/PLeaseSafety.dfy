/** Counting answers keeps the invariant; with that, every run does, and leases exclude each other. */
module PLeaseSafety {
  import opened Counting
  import opened PLease
  import opened PLeaseSystem
  import opened PLeaseInv
  import opened PLeaseExtends
  import opened PLeaseKeeps
  import opened PLeaseAnswers

  // ----- a proposer counts an answer to its prepare

  ghost function WithHeard(h: History, b: nat, node: nat): History { h.(heard := Join(h.heard, b, node)) }

  lemma HeardRecords(h: History, n: nat, b: nat, node: nat)
    requires RecordsOk(h, n) && Promised(h, node, b)
    ensures Extends(h, WithHeard(h, b, node)) && RecordsOk(WithHeard(h, b, node), n)
  {
    forall j: nat, c: nat ensures RecordOk(WithHeard(h, b, node), n, j, c) { RecordAt(h, n, j, c); }
    RecordsFrom(WithHeard(h, b, node), n);
  }

  /** One more answer, and what the proposer makes of it. */
  lemma GatherOne(h: History, p: Proposer, i: nat, m: Msg)
    requires Gathered(h, p, i) && m.IsPrepareResponse() && !m.PrepareRejected? && m.ballot == p.ballot
    requires Promised(h, m.node, p.ballot) && Reply(h, m.node, p.ballot) == m && !Heard(h, m.node, p.ballot)
    requires m.PreparePreviouslyAccepted? ==> m.owner == OwnerOf(m.acceptedBallot)
    ensures Gathered(WithHeard(h, p.ballot, m.node), p.CountPrepare(m), i)
  {
    var b, h', p' := p.ballot, WithHeard(h, p.ballot, m.node), p.CountPrepare(m);
    var q, q' := At(h.heard, b), At(h'.heard, b);
    assert q' == q + {m.node};
    forall a: nat | a in q' && Reported(h', a, b)
      ensures ReportedBallot(h', a, b) <= p'.highestReceived
      ensures p'.owner == OwnerOf(p'.highestReceived) && Topped(h', q', b, p'.owner, p'.highestReceived)
    {
      assert Reported(h, a, b);
      if m.PreparePreviouslyAccepted? && m.acceptedBallot >= p.highestReceived {
        assert Reported(h', m.node, b);
      } else {
        ToppedGrows(h, h', q, q', b, p.owner, p.highestReceived);
      }
    }
    if forall a: nat :: a in q' ==> !Reported(h', a, b) {
      forall a: nat | a in q ensures !Reported(h, a, b) { assert a in q'; assert !Reported(h', a, b); }
      assert !Reported(h', m.node, b);
    }
  }

  lemma ToppedGrows(h: History, h': History, q: set<nat>, q': set<nat>, c: nat, i: nat, b: nat)
    requires h'.promises == h.promises && q <= q'
    requires exists a: nat :: a in q && Reported(h, a, c)
    requires forall a: nat :: a in q && Reported(h, a, c) ==> Topped(h, q, c, i, b)
    ensures Topped(h', q', c, i, b)
  {
    assert Topped(h, q, c, i, b);
    var a: nat :| a in q && Reported(h, a, c) && b <= ReportedBallot(h, a, c) && OwnerOf(ReportedBallot(h, a, c)) == i;
    assert a in q' && Reported(h', a, c) && ReportedBallot(h', a, c) == ReportedBallot(h, a, c);
  }

  lemma HeardTouches(s: System, i: nat, m: Msg, p: Packet)
    requires Inv(s) && i < |s.ps| && m.IsPrepareResponse() && !m.PrepareRejected?
    requires PacketOk(s.h, |s.ps|, s.offsets, Packet(i, m)) && p in s.net && p != Packet(i, m)
    ensures Untouched(s.h, WithHeard(s.h, m.ballot, m.node), p)
  {
    assert PacketOk(s.h, |s.ps|, s.offsets, p);
  }

  lemma CountPrepareKeeps(s: System, i: nat, m: Msg)
    requires Inv(s) && i < |s.ps| && m.IsPrepareResponse() && s.ps[i].preparing && m.ballot == s.ps[i].ballot
    requires PacketOk(s.h, |s.ps|, s.offsets, Packet(i, m)) && (Single(m) ==> Packet(i, m) !in s.net)
    ensures Inv(CountPrepare(s, i, m))
  {
    var s' := CountPrepare(s, i, m);
    if m.PrepareRejected? {
      forall j: nat | j < |s.ps| ensures NodeOk(s', j) { assert NodeOk(s, j); }
      NodesKeep(s, s');
    } else {
      HeardPast(s, i, m);
      BallotsKeep(s.h, s'.h, s.ps, s'.ps);
      forall j: nat | j < |s.ps| ensures NodeOk(s', j) { HeardNodes(s, i, m, j); }
      forall p | p in s'.net && p in s.net ensures Untouched(s.h, s'.h, p) { HeardTouches(s, i, m, p); }
      Assemble(s, s');
    }
  }

  lemma HeardPast(s: System, i: nat, m: Msg)
    requires Inv(s) && i < |s.ps| && m.IsPrepareResponse() && !m.PrepareRejected? && s.ps[i].preparing && m.ballot == s.ps[i].ballot
    requires PacketOk(s.h, |s.ps|, s.offsets, Packet(i, m))
    ensures var s' := CountPrepare(s, i, m);
            Extends(s.h, s'.h) && RecordsOk(s'.h, |s.ps|) && Gathered(s'.h, s'.ps[i], i)
  {
    assert NodeOk(s, i);
    HeardRecords(s.h, |s.ps|, m.ballot, m.node);
    assert PromiseOk(s.h, |s.ps|, s.clock, m.node, m.ballot);
    GatherOne(s.h, s.ps[i], i, m);
  }

  lemma HeardNodes(s: System, i: nat, m: Msg, j: nat)
    requires Inv(s) && i < |s.ps| && j < |s.ps| && m.IsPrepareResponse() && !m.PrepareRejected?
    requires s.ps[i].preparing && m.ballot == s.ps[i].ballot
    requires Extends(s.h, CountPrepare(s, i, m).h) && RecordsOk(CountPrepare(s, i, m).h, |s.ps|)
    requires Gathered(CountPrepare(s, i, m).h, CountPrepare(s, i, m).ps[i], i)
    ensures NodeOk(CountPrepare(s, i, m), j)
  {
    var s' := CountPrepare(s, i, m);
    var h, h', n := s.h, s'.h, |s.ps|;
    assert NodeOk(s, i) && NodeOk(s, j);
    AcceptorExtends(h, h', n, s.clock, s.offsets[j], s.acs[j], j);
    LearnerExtends(h, h', n, s.offsets[j], s.ls[j], j);
    if j != i { ProposerExtends(h, h', n, s.offsets[j], s.ps[j], j); }
  }

  // ----- a proposer counts an answer to its propose

  ghost function WithCounted(h: History, b: nat, node: nat): History { h.(counted := Join(h.counted, b, node)) }

  lemma CountedRecords(h: History, n: nat, b: nat, node: nat)
    requires RecordsOk(h, n) && Voted(h, node, b)
    ensures Extends(h, WithCounted(h, b, node)) && RecordsOk(WithCounted(h, b, node), n)
  {
    forall j: nat, c: nat ensures RecordOk(WithCounted(h, b, node), n, j, c) { RecordAt(h, n, j, c); }
    RecordsFrom(WithCounted(h, b, node), n);
  }

  lemma CountedTouches(s: System, i: nat, m: Msg, p: Packet)
    requires Inv(s) && i < |s.ps| && m.ProposeAccepted?
    requires PacketOk(s.h, |s.ps|, s.offsets, Packet(i, m)) && p in s.net && p != Packet(i, m)
    ensures Untouched(s.h, WithCounted(s.h, m.ballot, m.node), p)
  {
    assert PacketOk(s.h, |s.ps|, s.offsets, p);
  }

  lemma CountedNodes(s: System, i: nat, m: Msg, j: nat)
    requires Inv(s) && i < |s.ps| && j < |s.ps| && m.ProposeAccepted?
    requires s.ps[i].proposing && m.ballot == s.ps[i].ballot && !Counted(s.h, m.node, m.ballot)
    requires Extends(s.h, CountPropose(s, i, m).h) && RecordsOk(CountPropose(s, i, m).h, |s.ps|)
    ensures NodeOk(CountPropose(s, i, m), j)
  {
    var s' := CountPropose(s, i, m);
    var h, h', n := s.h, s'.h, |s.ps|;
    assert NodeOk(s, i) && NodeOk(s, j);
    AcceptorExtends(h, h', n, s.clock, s.offsets[j], s.acs[j], j);
    LearnerExtends(h, h', n, s.offsets[j], s.ls[j], j);
    if j != i { ProposerExtends(h, h', n, s.offsets[j], s.ps[j], j); }
  }

  lemma CountProposeKeeps(s: System, i: nat, m: Msg)
    requires Inv(s) && i < |s.ps| && m.IsProposeResponse() && s.ps[i].proposing && m.ballot == s.ps[i].ballot
    requires PacketOk(s.h, |s.ps|, s.offsets, Packet(i, m)) && (Single(m) ==> Packet(i, m) !in s.net)
    ensures Inv(CountPropose(s, i, m))
  {
    var s' := CountPropose(s, i, m);
    var h, h', n := s.h, s'.h, |s.ps|;
    assert NodeOk(s, i);
    if !m.ProposeAccepted? {
      forall j: nat | j < n ensures NodeOk(s', j) { assert NodeOk(s, j); }
      NodesKeep(s, s');
    } else {
      CountedRecords(h, n, m.ballot, m.node);
      BallotsKeep(h, h', s.ps, s'.ps);
      forall j: nat | j < n ensures NodeOk(s', j) { CountedNodes(s, i, m, j); }
      forall p | p in s'.net && p in s.net ensures Untouched(h, h', p) { CountedTouches(s, i, m, p); }
      Assemble(s, s');
    }
  }

  /** A majority of counted acceptances is a majority of votes. */
  lemma WonIsChosen(s: System, i: nat)
    requires Inv(s) && i < |s.ps| && s.ps[i].proposing && s.ps[i].ProposeWon(s.configs[i], s.Now(i))
    ensures s.ps[i].owner == i && LeaseUntil(s.h, |s.ps|, s.offsets[i], i, s.ps[i].expire)
  {
    var b, h, n := s.ps[i].ballot, s.h, |s.ps|;
    assert NodeOk(s, i);
    forall a: nat | a in At(h.counted, b) ensures a in At(h.voters, b) { RecordAt(h, n, a, b); }
    SubsetSize(At(h.counted, b), At(h.voters, b));
    forall a: nat | a in At(h.voters, b) ensures a < n { RecordAt(h, n, a, b); }
    assert Chosen(h, n, b);
  }

  lemma AnnounceKeeps(s: System, i: nat)
    requires Inv(s) && i < |s.ps| && s.ps[i].proposing && s.ps[i].ProposeWon(s.configs[i], s.Now(i)) && s.ps[i].expire >= s.Now(i)
    ensures Inv(Announce(s, i))
  {
    var s' := Announce(s, i);
    WonIsChosen(s, i);
    var t := s.(ps := s'.ps);
    forall j: nat | j < |s.ps| ensures NodeOk(t, j) { assert NodeOk(s, j); }
    NodesKeep(s, t);
    forall j: nat | j < |s.ps| ensures NodeOk(s', j) { assert NodeOk(t, j); }
    forall p | p in s'.net ensures PacketOk(s.h, |s.ps|, s.offsets, p) {
      if p !in s.net { assert p.msg.LearnChosen? && p.msg.owner == i && p.msg.localExpire == s.ps[i].expire; }
    }
  }

  // ----- whole steps

  lemma ReceivePrepareRequestKeeps(s: System, p: Packet, filtered: bool)
    requires Inv(s) && p in s.net && p.dest < |s.ps| && p.msg.PrepareRequest?
    ensures Inv(Deliver(s, p, filtered))
  {
    assert PacketOk(s.h, |s.ps|, s.offsets, p);
    TakeKeeps(s, p);
    var u := Notice(Take(s, p), p.dest, p.msg.ballot);
    NoticeKeeps(Take(s, p), p.dest, p.msg.ballot);
    if !filtered {
      forall q | q in u.net ensures !(q.dest == p.dest && q.msg.PrepareRequest? && q.msg.ballot == p.msg.ballot) {
        assert PacketOk(s.h, |s.ps|, s.offsets, q);
      }
      AnswerPrepareKeeps(u, p.dest, p.msg.node, p.msg.ballot);
    }
  }

  lemma ReceiveProposeRequestKeeps(s: System, p: Packet)
    requires Inv(s) && p in s.net && p.dest < |s.ps| && p.msg.ProposeRequest? && Asked(s.h, p.dest, p.msg.ballot)
    ensures Inv(Deliver(s, p, false))
  {
    assert PacketOk(s.h, |s.ps|, s.offsets, p);
    TakeKeeps(s, p);
    var u := Notice(Take(s, p), p.dest, p.msg.ballot);
    NoticeKeeps(Take(s, p), p.dest, p.msg.ballot);
    forall q | q in u.net ensures !(q.dest == p.dest && q.msg.ProposeRequest? && q.msg.ballot == p.msg.ballot) {
      assert PacketOk(s.h, |s.ps|, s.offsets, q);
    }
    AnswerProposeKeeps(u, p.dest, p.msg);
  }

  lemma ReceivePrepareResponseKeeps(s: System, p: Packet)
    requires Inv(s) && p in s.net && p.dest < |s.ps| && p.msg.IsPrepareResponse()
    ensures Inv(DeliverPrepareResponse(Take(s, p), p.dest, p.msg))
  {
    var t, i, m := Take(s, p), p.dest, p.msg;
    assert PacketOk(s.h, |s.ps|, s.offsets, p);
    TakeKeeps(s, p);
    if t.ps[i].preparing && m.ballot == t.ps[i].ballot {
      CountPrepareKeeps(t, i, m);
      var u := CountPrepare(t, i, m);
      if u.ps[i].PrepareRefused(s.configs[i]) {
        StartKeeps(u, i);
      } else if u.ps[i].PrepareWon(s.configs[i]) {
        ProposeKeeps(u, i);
      }
    }
  }

  lemma ReceiveProposeResponseKeeps(s: System, p: Packet)
    requires Inv(s) && p in s.net && p.dest < |s.ps| && p.msg.IsProposeResponse()
    ensures Inv(DeliverProposeResponse(Take(s, p), p.dest, p.msg))
  {
    var t, i, m := Take(s, p), p.dest, p.msg;
    assert PacketOk(s.h, |s.ps|, s.offsets, p);
    TakeKeeps(s, p);
    if t.ps[i].expire >= t.Now(i) && t.ps[i].proposing && m.ballot == t.ps[i].ballot {
      CountProposeKeeps(t, i, m);
      var u := CountPropose(t, i, m);
      if u.ps[i].ProposeWon(s.configs[i], s.Now(i)) {
        AnnounceKeeps(u, i);
      } else if u.ps[i].numReceived == |s.ps| {
        StartKeeps(u, i);
      }
    }
  }

  /** Every step of a strict run keeps the invariant. */
  lemma StepKeeps(s: System, e: Event)
    requires Inv(s) && Enabled(s, e, true)
    ensures Inv(Step(s, e))
  {
    match e
    case Tick(ticks) => TickKeeps(s, ticks);
    case Acquire(i) => StartKeeps(s, i);
    case Stop(i) => StopKeeps(s, i);
    case AcceptorTimer(i) => AcceptorTimerKeeps(s, i);
    case LearnerTimer(i) => LearnerTimerKeeps(s, i);
    case CheckLease(i) => CheckLeaseKeeps(s, i);
    case Lose(p) => TakeKeeps(s, p);
    case Receive(p, filtered) => ReceiveKeeps(s, p, filtered);
  }

  lemma ReceiveKeeps(s: System, p: Packet, filtered: bool)
    requires Inv(s) && Enabled(s, Receive(p, filtered), true)
    ensures Inv(Deliver(s, p, filtered))
  {
    if p.msg.PrepareRequest? {
      ReceivePrepareRequestKeeps(s, p, filtered);
    } else if p.msg.ProposeRequest? {
      ReceiveProposeRequestKeeps(s, p);
    } else if p.msg.IsPrepareResponse() {
      ReceivePrepareResponseKeeps(s, p);
    } else if p.msg.IsProposeResponse() {
      ReceiveProposeResponseKeeps(s, p);
    } else {
      assert PacketOk(s.h, |s.ps|, s.offsets, p);
      TakeKeeps(s, p);
      LearnKeeps(Take(s, p), p.dest, p.msg);
    }
  }

  // ----- whole runs

  lemma InitInv(s: System)
    requires Init(s)
    ensures Inv(s)
  {
    forall j: nat, c: nat ensures RecordOk(s.h, |s.ps|, j, c) {}
    RecordsFrom(s.h, |s.ps|);
    forall i: nat | i < |s.ps| ensures NodeOk(s, i) {}
  }

  lemma {:induction false} RunInv(states: seq<System>, events: seq<Event>, k: nat)
    requires Run(states, events, true) && k <= |events|
    ensures Inv(states[k])
  {
    if k == 0 {
      InitInv(states[0]);
    } else {
      RunInv(states, events, k - 1);
      StepKeeps(states[k - 1], events[k - 1]);
    }
  }

  /** An acceptor's timer fires on the very tick at which the acceptance expires. */
  ghost predicate FiresOnTick(s: System, e: Event) {
    e.AcceptorTimer? && e.node < |s.acs| && e.node < |s.offsets| && s.acs[e.node].acceptedExpire == s.Now(e.node)
  }

  /** One has done so before state k, at global time t. */
  ghost predicate FiredOnTick(states: seq<System>, events: seq<Event>, k: nat, t: nat)
    requires k <= |events| <= |states|
  {
    exists e: nat :: e < k && FiresOnTick(states[e], events[e]) && states[e].clock == t
  }

  lemma {:induction false} OnTickRecorded(states: seq<System>, events: seq<Event>, k: nat, t: nat)
    requires Run(states, events, true) && k <= |events| && t in states[k].h.onTick
    ensures FiredOnTick(states, events, k, t)
  {
    if k > 0 {
      StepOnTick(states[k - 1], events[k - 1]);
      if t in states[k - 1].h.onTick { OnTickRecorded(states, events, k - 1, t); }
    }
  }

  lemma StepOnTick(s: System, e: Event)
    requires s.Shaped() && Enabled(s, e, false)
    ensures Step(s, e).h.onTick == s.h.onTick + (if FiresOnTick(s, e) then {s.clock} else {})
  {
    if e.Receive? { DeliverOnTick(s, e.packet, e.filtered); }
  }

  lemma DeliverOnTick(s: System, p: Packet, filtered: bool)
    requires s.Shaped() && p.dest < |s.ps|
    ensures Deliver(s, p, filtered).h.onTick == s.h.onTick
  {
    if p.msg.IsPrepareResponse() || p.msg.IsProposeResponse() { ResponseOnTick(Take(s, p), p.dest, p.msg); }
  }

  lemma ResponseOnTick(s: System, i: nat, m: Msg)
    requires s.Shaped() && i < |s.ps|
    ensures m.IsPrepareResponse() ==> DeliverPrepareResponse(s, i, m).h.onTick == s.h.onTick
    ensures m.IsProposeResponse() ==> DeliverProposeResponse(s, i, m).h.onTick == s.h.onTick
  {
  }

  /** Lease mutual exclusion: in every strict run, at every point, two different nodes both answer true to IsLeaseOwner
      only if one of their leases is in its last tick and some acceptor's timer has fired, on its expiry tick, on this very
      tick. */
  lemma LeaseMutualExclusion(states: seq<System>, events: seq<Event>, k: nat, i: nat, j: nat)
    requires Run(states, events, true) && k <= |events| && states[k].Shaped()
    requires i < |states[k].ls| && j < |states[k].ls| && Owns(states[k], i) && Owns(states[k], j)
    ensures i == j || ((LastTick(states[k], i) || LastTick(states[k], j)) && FiredOnTick(states, events, k, states[k].clock))
  {
    RunInv(states, events, k);
    Exclusive(states[k], i, j);
    if i != j { OnTickRecorded(states, events, k, states[k].clock); }
  }

  /** So exclusion is complete on every tick on which no acceptor's timer fires on its expiry tick ... */
  lemma ExclusionOffTheTick(states: seq<System>, events: seq<Event>, k: nat, i: nat, j: nat)
    requires Run(states, events, true) && k <= |events| && states[k].Shaped()
    requires forall e: nat :: e < k && states[e].clock == states[k].clock ==> !FiresOnTick(states[e], events[e])
    requires i < |states[k].ls| && j < |states[k].ls| && Owns(states[k], i) && Owns(states[k], j)
    ensures i == j
  {
    LeaseMutualExclusion(states, events, k, i, j);
  }

  /** ... and, whenever timers fire, in every state in which no lease ends with the current tick. */
  lemma ExclusionBeforeTheLastTick(states: seq<System>, events: seq<Event>, k: nat, i: nat, j: nat)
    requires Run(states, events, true) && k <= |events| && states[k].Shaped()
    requires i < |states[k].ls| && j < |states[k].ls| && !LastTick(states[k], i) && !LastTick(states[k], j)
    requires Owns(states[k], i) && Owns(states[k], j)
    ensures i == j
  {
    LeaseMutualExclusion(states, events, k, i, j);
  }
}
