/** The invariant behind lease exclusion, and why it implies it. */
module PLeaseInv {
  import opened PLease
  import opened PLeaseSystem

  ghost predicate Issued(h: History, b: nat) { b in h.issued }

  ghost predicate Proposed(h: History, b: nat) { b in h.proposals }

  ghost predicate Asked(h: History, i: nat, b: nat) { Key(i, b) in h.asked }

  ghost predicate Promised(h: History, i: nat, b: nat) { Key(i, b) in h.promises }

  ghost predicate Offered(h: History, i: nat, b: nat) { Key(i, b) in h.offered }

  ghost predicate Voted(h: History, i: nat, b: nat) { i in At(h.voters, b) }

  ghost predicate Heard(h: History, i: nat, b: nat) { i in At(h.heard, b) }

  ghost predicate Counted(h: History, i: nat, b: nat) { i in At(h.counted, b) }

  ghost function Reply(h: History, i: nat, b: nat): Msg
    requires Promised(h, i, b)
  {
    h.promises[Key(i, b)].reply
  }

  /** The answer of node i to the prepare of ballot b reported an accepted ballot. */
  ghost predicate Reported(h: History, i: nat, b: nat) {
    Promised(h, i, b) && Reply(h, i, b).PreparePreviouslyAccepted?
  }

  ghost function ReportedBallot(h: History, i: nat, b: nat): nat
    requires Reported(h, i, b)
  {
    Reply(h, i, b).acceptedBallot
  }

  ghost function PromisedAt(h: History, i: nat, b: nat): nat
    requires Promised(h, i, b)
  {
    h.promises[Key(i, b)].at
  }

  ghost function StartOf(h: History, b: nat): nat
    requires Proposed(h, b)
  {
    h.proposals[b].start
  }

  /** The global time until which a proposed ballot's lease lasts. */
  ghost function End(h: History, b: nat): nat
    requires Proposed(h, b)
  {
    h.proposals[b].start + MAX_LEASE_TIME
  }

  /** At time t the lease of a proposed ballot is still respected: a timer that fires on the last tick cuts it off. */
  ghost predicate Running(h: History, t: nat, b: nat)
    requires Proposed(h, b)
  {
    t < End(h, b) || (t == End(h, b) && t !in h.onTick)
  }

  ghost predicate Majority(n: nat, q: set<nat>) {
    |q| >= n / 2 + 1 && forall i :: i in q ==> i < n
  }

  ghost predicate Chosen(h: History, n: nat, b: nat) { Proposed(h, b) && Majority(n, At(h.voters, b)) }

  /** Some chosen ballot of node i gives it the lease until local time t. */
  ghost predicate LeaseUntil(h: History, n: nat, offset: nat, i: nat, t: nat) {
    exists b: nat :: Chosen(h, n, b) && OwnerOf(b) == i && t == End(h, b) + offset
  }

  // ----- the parts of the invariant

  ghost predicate BallotOk(ps: seq<Proposer>, b: nat) {
    OwnerOf(b) < |ps| && 0 < b <= ps[OwnerOf(b)].highest
  }

  ghost predicate BallotsOk(h: History, ps: seq<Proposer>) { forall b: nat :: Issued(h, b) ==> BallotOk(ps, b) }

  /** What the history says hangs together. */
  ghost predicate RecordsOk(h: History, n: nat) {
    && (forall i: nat, b: nat :: Asked(h, i, b) ==> i < n && Issued(h, b))
    && (forall i: nat, b: nat :: Promised(h, i, b) ==> Asked(h, i, b))
    && (forall b: nat :: Proposed(h, b) ==> Issued(h, b))
    && (forall i: nat, b: nat :: Offered(h, i, b) ==> Proposed(h, b))
    && (forall i: nat, b: nat :: Voted(h, i, b) ==> Proposed(h, b) && Promised(h, i, b) && Offered(h, i, b))
    && (forall i: nat, b: nat :: Heard(h, i, b) ==> Promised(h, i, b))
    && (forall i: nat, b: nat :: Counted(h, i, b) ==> Voted(h, i, b))
  }

  /** RecordsOk for one node and ballot. */
  ghost predicate RecordOk(h: History, n: nat, i: nat, b: nat) {
    && (Asked(h, i, b) ==> i < n && Issued(h, b))
    && (Promised(h, i, b) ==> Asked(h, i, b))
    && (Proposed(h, b) ==> Issued(h, b))
    && (Offered(h, i, b) ==> Proposed(h, b))
    && (Voted(h, i, b) ==> Proposed(h, b) && Promised(h, i, b) && Offered(h, i, b))
    && (Heard(h, i, b) ==> Promised(h, i, b))
    && (Counted(h, i, b) ==> Voted(h, i, b))
  }

  lemma RecordAt(h: History, n: nat, i: nat, b: nat)
    requires RecordsOk(h, n)
    ensures RecordOk(h, n, i, b)
  {
  }

  lemma RecordsFrom(h: History, n: nat)
    requires forall i: nat, b: nat :: RecordOk(h, n, i, b)
    ensures RecordsOk(h, n)
  {
    forall i: nat, b: nat | Asked(h, i, b) ensures i < n && Issued(h, b) { assert RecordOk(h, n, i, b); }
    forall i: nat, b: nat | Promised(h, i, b) ensures Asked(h, i, b) { assert RecordOk(h, n, i, b); }
    forall b: nat | Proposed(h, b) ensures Issued(h, b) { assert RecordOk(h, n, 0, b); }
    forall i: nat, b: nat | Offered(h, i, b) ensures Proposed(h, b) { assert RecordOk(h, n, i, b); }
    forall i: nat, b: nat | Voted(h, i, b) ensures Proposed(h, b) && Promised(h, i, b) && Offered(h, i, b) {
      assert RecordOk(h, n, i, b);
    }
    forall i: nat, b: nat | Heard(h, i, b) ensures Promised(h, i, b) { assert RecordOk(h, n, i, b); }
    forall i: nat, b: nat | Counted(h, i, b) ensures Voted(h, i, b) { assert RecordOk(h, n, i, b); }
  }

  ghost predicate PacketOk(h: History, n: nat, offsets: seq<nat>, p: Packet)
    requires |offsets| == n
  {
    match p.msg
    case PrepareRequest(node, b, id) => Issued(h, b) && node == id == OwnerOf(b) && !Asked(h, p.dest, b)
    case PrepareRejected(_, _) => true
    case PreparePreviouslyAccepted(node, b, _, _, _) =>
      Promised(h, node, b) && Reply(h, node, b) == p.msg && p.dest == OwnerOf(b) && !Heard(h, node, b)
    case PrepareCurrentlyOpen(node, b) =>
      Promised(h, node, b) && Reply(h, node, b) == p.msg && p.dest == OwnerOf(b) && !Heard(h, node, b)
    case ProposeRequest(node, b, owner, duration) =>
      Proposed(h, b) && node == owner == OwnerOf(b) && duration == MAX_LEASE_TIME && !Offered(h, p.dest, b)
    case ProposeRejected(_, _) => true
    case ProposeAccepted(node, b) => Voted(h, node, b) && p.dest == OwnerOf(b) && !Counted(h, node, b)
    case LearnChosen(node, owner, _, localExpire) => owner < n && LeaseUntil(h, n, offsets[owner], owner, localExpire)
  }

  /** Requests and positive answers are in flight at most once. */
  ghost predicate Single(m: Msg) {
    m.PrepareRequest? || m.PreparePreviouslyAccepted? || m.PrepareCurrentlyOpen? || m.ProposeRequest? || m.ProposeAccepted?
  }

  ghost predicate PacketsOk(h: History, n: nat, offsets: seq<nat>, net: multiset<Packet>)
    requires |offsets| == n
  {
    && (forall p :: p in net ==> PacketOk(h, n, offsets, p))
    && (forall p :: p in net && Single(p.msg) ==> net[p] == 1)
  }

  /** Acceptor i has promised at least every ballot it answered, and holds on to what it voted for while that lasts. */
  ghost predicate AcceptorOk(h: History, n: nat, clock: nat, offset: nat, a: Acceptor, i: nat)
    requires RecordsOk(h, n)
  {
    && (forall b: nat :: Asked(h, i, b) ==> if Promised(h, i, b) then b <= a.promised else b < a.promised)
    && (a.accepted ==> Voted(h, i, a.acceptedBallot) && a.acceptedOwner == OwnerOf(a.acceptedBallot))
    && (forall b: nat :: Voted(h, i, b) && Running(h, clock, b) ==>
          a.accepted && b <= a.acceptedBallot && End(h, b) + offset <= a.acceptedExpire)
  }

  /** A promise reported the newest lower vote of its acceptor that was still running. */
  ghost predicate PromiseOk(h: History, n: nat, clock: nat, i: nat, c: nat)
    requires RecordsOk(h, n) && Promised(h, i, c)
  {
    var r, at := Reply(h, i, c), PromisedAt(h, i, c);
    && at <= clock
    && (r.PrepareCurrentlyOpen? || r.PreparePreviouslyAccepted?)
    && r.node == i && r.ballot == c
    && (r.PreparePreviouslyAccepted? ==>
          && r.acceptedBallot < c && r.owner == OwnerOf(r.acceptedBallot)
          && Proposed(h, r.acceptedBallot) && StartOf(h, r.acceptedBallot) <= at)
    && (forall b: nat :: Voted(h, i, b) && b < c && Running(h, at, b) ==> r.PreparePreviouslyAccepted? && b <= r.acceptedBallot)
  }

  /** Some answer in q for ballot c reported a ballot of node i that is at least b. */
  ghost predicate Topped(h: History, q: set<nat>, c: nat, i: nat, b: nat) {
    exists a: nat :: a in q && Reported(h, a, c) && b <= ReportedBallot(h, a, c) && OwnerOf(ReportedBallot(h, a, c)) == i
  }

  /** Among the answers of q for ballot c, the highest ballot reported is one of node i. */
  ghost predicate OwnOnTop(h: History, q: set<nat>, c: nat, i: nat) {
    forall a: nat :: a in q && Reported(h, a, c) ==> Topped(h, q, c, i, ReportedBallot(h, a, c))
  }

  /** A ballot was proposed on a majority of answers, none of which reported a foreign vote on top. */
  ghost predicate ProposalOk(h: History, n: nat, clock: nat, c: nat)
    requires Proposed(h, c)
  {
    match h.proposals[c]
    case Proposal(start, quorum) =>
      && start <= clock
      && Majority(n, quorum)
      && (forall a: nat :: a in quorum ==> Promised(h, a, c) && PromisedAt(h, a, c) <= start)
      && OwnOnTop(h, quorum, c, OwnerOf(c))
  }

  /** What a preparing proposer has gathered from the answers counted so far. */
  ghost predicate Gathered(h: History, p: Proposer, i: nat) {
    var q := At(h.heard, p.ballot);
    && p.numReceived - p.numRejected == |q|
    && (forall a: nat :: a in q && Reported(h, a, p.ballot) ==> ReportedBallot(h, a, p.ballot) <= p.highestReceived)
    && ((forall a: nat :: a in q ==> !Reported(h, a, p.ballot)) ==> p.owner == i && p.highestReceived == 0)
    && (forall a: nat :: a in q && Reported(h, a, p.ballot) ==>
          p.owner == OwnerOf(p.highestReceived) && Topped(h, q, p.ballot, p.owner, p.highestReceived))
  }

  ghost predicate ProposerOk(h: History, offset: nat, p: Proposer, i: nat) {
    && !(p.preparing && p.proposing)
    && (p.preparing || p.proposing ==> Issued(h, p.ballot) && OwnerOf(p.ballot) == i)
    && (p.preparing ==> !Proposed(h, p.ballot) && Gathered(h, p, i))
    && (p.proposing ==>
          && Proposed(h, p.ballot) && p.owner == i && p.expire == End(h, p.ballot) + offset
          && p.numAccepted == |At(h.counted, p.ballot)|)
  }

  ghost predicate LearnerOk(h: History, n: nat, offset: nat, l: Learner, i: nat) {
    l.learned && l.owner == i ==> LeaseUntil(h, n, offset, i, l.expire)
  }

  /** The parts that speak of the history and the clock only. */
  ghost predicate PastOk(h: History, n: nat, clock: nat) {
    && RecordsOk(h, n)
    && (forall i: nat, c: nat :: Promised(h, i, c) ==> PromiseOk(h, n, clock, i, c))
    && (forall c: nat :: Proposed(h, c) ==> ProposalOk(h, n, clock, c))
  }

  /** The parts that speak of the nodes. */
  ghost predicate NodeOk(s: System, i: nat)
    requires s.Shaped() && i < |s.ps| && RecordsOk(s.h, |s.ps|)
  {
    && AcceptorOk(s.h, |s.ps|, s.clock, s.offsets[i], s.acs[i], i)
    && ProposerOk(s.h, s.offsets[i], s.ps[i], i)
    && LearnerOk(s.h, |s.ps|, s.offsets[i], s.ls[i], i)
  }

  ghost predicate Inv(s: System) {
    && s.Shaped()
    && BallotsOk(s.h, s.ps)
    && PastOk(s.h, |s.ps|, s.clock)
    && PacketsOk(s.h, |s.ps|, s.offsets, s.net)
    && (forall i: nat :: i < |s.ps| ==> NodeOk(s, i))
  }

  // ----- what it implies

  lemma {:induction false} CountBelow(q: set<nat>, n: nat)
    requires forall i :: i in q ==> i < n
    ensures |q| <= n
  {
    if n == 0 {
      assert q == {};
    } else {
      CountBelow(q - {n - 1}, n - 1);
    }
  }

  /** Two majorities share a node. */
  lemma MajoritiesMeet(n: nat, q: set<nat>, r: set<nat>) returns (a: nat)
    requires Majority(n, q) && Majority(n, r)
    ensures a in q && a in r
  {
    CountBelow(q + r, n);
    assert |q + r| == |q| + |r| - |q * r|;
    a :| a in q * r;
  }

  /** While the lease of a chosen ballot runs, higher ballots are only proposed by its owner. */
  lemma {:induction false} SameOwner(h: History, n: nat, clock: nat, b: nat, c: nat)
    requires PastOk(h, n, clock) && Chosen(h, n, b) && Proposed(h, c) && b < c && Running(h, StartOf(h, c), b)
    ensures OwnerOf(c) == OwnerOf(b)
    decreases c
  {
    var q := h.proposals[c].quorum;
    assert ProposalOk(h, n, clock, c);
    var a := MajoritiesMeet(n, At(h.voters, b), q);
    assert Voted(h, a, b) && PromiseOk(h, n, clock, a, c);
    assert Topped(h, q, c, OwnerOf(c), ReportedBallot(h, a, c));
    var t: nat :| t in q && Reported(h, t, c) && ReportedBallot(h, a, c) <= ReportedBallot(h, t, c)
                  && OwnerOf(ReportedBallot(h, t, c)) == OwnerOf(c);
    assert PromiseOk(h, n, clock, t, c);
    var d := ReportedBallot(h, t, c);
    if d != b { SameOwner(h, n, clock, b, d); }
  }

  /** Leases of different owners overlap only on the last tick of the older one, if a timer fires on it. */
  lemma Overlap(h: History, n: nat, clock: nat, b: nat, c: nat)
    requires PastOk(h, n, clock) && Chosen(h, n, b) && Proposed(h, c) && b < c && StartOf(h, c) <= clock <= End(h, b)
    ensures OwnerOf(c) == OwnerOf(b) || (clock == End(h, b) && clock in h.onTick)
  {
    if Running(h, StartOf(h, c), b) { SameOwner(h, n, clock, b, c); }
  }

  /** A node that answers true holds a chosen ballot whose lease still runs. */
  lemma OwnerHasLease(s: System, i: nat) returns (b: nat)
    requires Inv(s) && i < |s.ls| && Owns(s, i)
    ensures Chosen(s.h, |s.ps|, b) && OwnerOf(b) == i && StartOf(s.h, b) <= s.clock <= End(s.h, b)
    ensures s.ls[i].expire == End(s.h, b) + s.offsets[i]
  {
    assert NodeOk(s, i);
    assert LeaseUntil(s.h, |s.ps|, s.offsets[i], i, s.ls[i].expire);
    b :| Chosen(s.h, |s.ps|, b) && OwnerOf(b) == i && s.ls[i].expire == End(s.h, b) + s.offsets[i];
    assert ProposalOk(s.h, |s.ps|, s.clock, b);
  }

  /** The lease of node i ends with the current tick. */
  ghost predicate LastTick(s: System, i: nat)
    requires s.Shaped() && i < |s.ls|
  {
    s.ls[i].expire == s.Now(i)
  }

  /** No two nodes hold the lease at the same time, unless one of the leases is in its last tick and some acceptor's timer has
      fired on its tick just now. */
  lemma Exclusive(s: System, i: nat, j: nat)
    requires Inv(s) && i < |s.ls| && j < |s.ls| && Owns(s, i) && Owns(s, j)
    ensures i == j || (s.clock in s.h.onTick && (LastTick(s, i) || LastTick(s, j)))
  {
    var b := OwnerHasLease(s, i);
    var c := OwnerHasLease(s, j);
    if b < c {
      Overlap(s.h, |s.ps|, s.clock, b, c);
    } else if c < b {
      Overlap(s.h, |s.ps|, s.clock, c, b);
    }
  }
}
