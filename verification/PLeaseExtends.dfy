/** What survives when the history grows. */
module PLeaseExtends {
  import opened Counting
  import opened PLease
  import opened PLeaseSystem
  import opened PLeaseInv

  ghost predicate Within(m: map<nat, set<nat>>, m': map<nat, set<nat>>) { forall b: nat :: At(m, b) <= At(m', b) }

  ghost predicate Extends(h: History, h': History) {
    && h.issued <= h'.issued && h.asked <= h'.asked && h.offered <= h'.offered
    && (forall k :: k in h.promises ==> k in h'.promises && h'.promises[k] == h.promises[k])
    && (forall b: nat :: b in h.proposals ==> b in h'.proposals && h'.proposals[b] == h.proposals[b])
    && h.onTick <= h'.onTick
    && Within(h.heard, h'.heard) && Within(h.voters, h'.voters) && Within(h.counted, h'.counted)
  }

  lemma ChosenExtends(h: History, h': History, n: nat, b: nat)
    requires Extends(h, h') && RecordsOk(h', n) && Chosen(h, n, b)
    ensures Chosen(h', n, b) && End(h', b) == End(h, b)
  {
    SubsetSize(At(h.voters, b), At(h'.voters, b));
    forall i: nat | i in At(h'.voters, b) ensures i < n {
      assert Voted(h', i, b);
      assert Promised(h', i, b);
      assert Asked(h', i, b);
    }
  }

  lemma LeaseExtends(h: History, h': History, n: nat, offset: nat, i: nat, t: nat)
    requires Extends(h, h') && RecordsOk(h', n) && LeaseUntil(h, n, offset, i, t)
    ensures LeaseUntil(h', n, offset, i, t)
  {
    var b: nat :| Chosen(h, n, b) && OwnerOf(b) == i && t == End(h, b) + offset;
    ChosenExtends(h, h', n, b);
  }

  lemma PromiseExtends(h: History, h': History, n: nat, clock: nat, i: nat, c: nat)
    requires Extends(h, h') && RecordsOk(h, n) && RecordsOk(h', n) && Promised(h, i, c) && PromiseOk(h, n, clock, i, c)
    requires forall b: nat :: Voted(h', i, b) && b < c ==> Voted(h, i, b)
    ensures Promised(h', i, c) && PromiseOk(h', n, clock, i, c)
  {
  }

  lemma ToppedExtends(h: History, h': History, q: set<nat>, c: nat, i: nat, b: nat)
    requires Extends(h, h') && Topped(h, q, c, i, b)
    ensures Topped(h', q, c, i, b)
  {
    var a: nat :| a in q && Reported(h, a, c) && b <= ReportedBallot(h, a, c) && OwnerOf(ReportedBallot(h, a, c)) == i;
    assert Reported(h', a, c) && ReportedBallot(h', a, c) == ReportedBallot(h, a, c);
  }

  lemma ProposalExtends(h: History, h': History, n: nat, clock: nat, c: nat)
    requires Extends(h, h') && Proposed(h, c) && ProposalOk(h, n, clock, c)
    ensures Proposed(h', c) && ProposalOk(h', n, clock, c)
  {
    var q := h.proposals[c].quorum;
    forall a: nat | a in q ensures Promised(h', a, c) && PromisedAt(h', a, c) <= h.proposals[c].start {
      assert Promised(h, a, c);
    }
    forall a: nat | a in q && Reported(h', a, c) ensures Topped(h', q, c, OwnerOf(c), ReportedBallot(h', a, c)) {
      assert Promised(h, a, c);
      assert Reported(h, a, c);
      ToppedExtends(h, h', q, c, OwnerOf(c), ReportedBallot(h, a, c));
    }
  }

  lemma GatheredExtends(h: History, h': History, p: Proposer, i: nat)
    requires Extends(h, h') && Gathered(h, p, i) && At(h'.heard, p.ballot) == At(h.heard, p.ballot)
    requires forall a: nat :: Heard(h, a, p.ballot) ==> Promised(h, a, p.ballot)
    ensures Gathered(h', p, i)
  {
    var q := At(h.heard, p.ballot);
    forall a: nat | a in q ensures Promised(h, a, p.ballot) && (Reported(h', a, p.ballot) <==> Reported(h, a, p.ballot)) {
      assert Heard(h, a, p.ballot);
    }
    forall a: nat | a in q && Reported(h', a, p.ballot)
      ensures Topped(h', q, p.ballot, p.owner, p.highestReceived) && p.owner == OwnerOf(p.highestReceived)
    {
      assert Reported(h, a, p.ballot);
      ToppedExtends(h, h', q, p.ballot, p.owner, p.highestReceived);
    }
  }

  /** A proposer that took no part in a step. */
  lemma ProposerExtends(h: History, h': History, n: nat, offset: nat, p: Proposer, i: nat)
    requires Extends(h, h') && RecordsOk(h, n) && ProposerOk(h, offset, p, i)
    requires p.preparing ==> (Proposed(h', p.ballot) ==> Proposed(h, p.ballot)) && At(h'.heard, p.ballot) == At(h.heard, p.ballot)
    requires p.proposing ==> At(h'.counted, p.ballot) == At(h.counted, p.ballot)
    ensures ProposerOk(h', offset, p, i)
  {
    if p.preparing { GatheredExtends(h, h', p, i); }
  }

  /** An acceptor that took no part in a step. */
  lemma AcceptorExtends(h: History, h': History, n: nat, clock: nat, offset: nat, a: Acceptor, i: nat)
    requires Extends(h, h') && RecordsOk(h, n) && RecordsOk(h', n) && AcceptorOk(h, n, clock, offset, a, i)
    requires forall b: nat :: (Asked(h', i, b) ==> Asked(h, i, b)) && (Promised(h', i, b) ==> Promised(h, i, b))
    requires forall b: nat :: Voted(h', i, b) ==> Voted(h, i, b)
    ensures AcceptorOk(h', n, clock, offset, a, i)
  {
    forall b: nat | Asked(h', i, b) ensures if Promised(h', i, b) then b <= a.promised else b < a.promised {
      assert Asked(h, i, b);
      assert Promised(h', i, b) <==> Promised(h, i, b);
    }
    forall b: nat | Voted(h', i, b) && Running(h', clock, b)
      ensures a.accepted && b <= a.acceptedBallot && End(h', b) + offset <= a.acceptedExpire
    {
      assert Voted(h, i, b);
      assert Proposed(h, b);
    }
  }

  lemma LearnerExtends(h: History, h': History, n: nat, offset: nat, l: Learner, i: nat)
    requires Extends(h, h') && RecordsOk(h', n) && LearnerOk(h, n, offset, l, i)
    ensures LearnerOk(h', n, offset, l, i)
  {
    if l.learned && l.owner == i { LeaseExtends(h, h', n, offset, i, l.expire); }
  }

  /** What a packet must not find recorded meanwhile. */
  ghost predicate Untouched(h: History, h': History, p: Packet) {
    match p.msg
    case PrepareRequest(_, b, _) => Asked(h', p.dest, b) ==> Asked(h, p.dest, b)
    case PreparePreviouslyAccepted(node, b, _, _, _) => Heard(h', node, b) ==> Heard(h, node, b)
    case PrepareCurrentlyOpen(node, b) => Heard(h', node, b) ==> Heard(h, node, b)
    case ProposeRequest(_, b, _, _) => Offered(h', p.dest, b) ==> Offered(h, p.dest, b)
    case ProposeAccepted(node, b) => Counted(h', node, b) ==> Counted(h, node, b)
    case _ => true
  }

  lemma NothingTouched(h: History, h': History, p: Packet)
    requires h'.asked == h.asked && h'.heard == h.heard && h'.offered == h.offered && h'.counted == h.counted
    ensures Untouched(h, h', p)
  {
  }

  lemma PacketExtends(h: History, h': History, n: nat, offsets: seq<nat>, p: Packet)
    requires |offsets| == n && Extends(h, h') && RecordsOk(h', n) && PacketOk(h, n, offsets, p) && Untouched(h, h', p)
    ensures PacketOk(h', n, offsets, p)
  {
    match p.msg
    case LearnChosen(_, owner, _, t) => LeaseExtends(h, h', n, offsets[owner], owner, t);
    case ProposeAccepted(node, b) => assert At(h.voters, b) <= At(h'.voters, b);
    case _ =>
  }

  /** All past records survive if no vote was added below a promise. */
  lemma PastExtends(h: History, h': History, n: nat, clock: nat)
    requires Extends(h, h') && PastOk(h, n, clock) && RecordsOk(h', n)
    requires forall i: nat, c: nat, b: nat :: Promised(h, i, c) && Voted(h', i, b) && b < c ==> Voted(h, i, b)
    ensures forall i: nat, c: nat :: Promised(h, i, c) ==> Promised(h', i, c) && PromiseOk(h', n, clock, i, c)
    ensures forall c: nat :: Proposed(h, c) ==> Proposed(h', c) && ProposalOk(h', n, clock, c)
  {
    forall i: nat, c: nat | Promised(h, i, c) ensures Promised(h', i, c) && PromiseOk(h', n, clock, i, c) {
      PromiseExtends(h, h', n, clock, i, c);
    }
    forall c: nat | Proposed(h, c) ensures Proposed(h', c) && ProposalOk(h', n, clock, c) {
      ProposalExtends(h, h', n, clock, c);
    }
  }
}
