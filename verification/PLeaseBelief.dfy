/** What nodes believe of each other's leases (PL/PLeaseLearner.cpp:41-70): the margin of the conservative estimate is exactly
    the delay of an announcement that it makes up for. */
module PLeaseBelief {
  import opened Counting
  import opened PLease
  import opened PLeaseSystem
  import opened PLeaseInv
  import opened PLeaseExtends
  import opened PLeaseKeeps
  import opened PLeaseSafety

  /** GetLeaseOwner at node j answers i. */
  ghost predicate Names(s: System, j: nat, i: nat)
    requires s.Shaped() && j < |s.ls|
  {
    s.ls[j].IsLeaseOwner(i, s.Now(j))
  }

  // ----- the invariant

  /** Announcement a is of the lease of ballot b, and was made before its last MARGIN ticks. */
  ghost predicate Backed(h: History, n: nat, offsets: seq<nat>, clock: nat, a: Announcement, b: nat) {
    && a.msg.LearnChosen? && a.msg.node == a.msg.owner < n <= |offsets| && a.at <= clock && a.msg.duration > MARGIN
    && Chosen(h, n, b) && OwnerOf(b) == a.msg.owner && End(h, b) == a.at + a.msg.duration
    && a.msg.localExpire == End(h, b) + offsets[a.msg.owner]
  }

  ghost predicate AnnouncementOk(h: History, n: nat, offsets: seq<nat>, clock: nat, a: Announcement) {
    exists b: nat :: Backed(h, n, offsets, clock, a, b)
  }

  ghost predicate Announced(news: News, m: Msg) { exists at: nat :: Announcement(m, at) in news.announced }

  /** Node j knows of the lease of ballot b, and takes it to last longer than it does exactly if it knows it late. */
  ghost predicate Believed(h: History, n: nat, offset: nat, l: Learner, late: bool, b: nat) {
    Chosen(h, n, b) && OwnerOf(b) == l.owner && (late <==> l.expire > End(h, b) + offset)
  }

  ghost predicate BeliefOk(h: History, n: nat, offset: nat, l: Learner, late: bool, j: nat) {
    l.learned && l.owner != j ==> exists b: nat :: Believed(h, n, offset, l, late, b)
  }

  ghost predicate NewsOk(s: System) {
    && s.Shaped()
    && (forall a :: a in s.news.announced ==> AnnouncementOk(s.h, |s.ps|, s.offsets, s.clock, a))
    && (forall p :: p in s.net && p.msg.LearnChosen? ==> Announced(s.news, p.msg))
    && (forall j: nat :: j < |s.ps| ==> BeliefOk(s.h, |s.ps|, s.offsets[j], s.ls[j], j in s.news.late, j))
  }

  // ----- chosen ballots stay chosen

  ghost predicate Grows(h: History, h': History) {
    && (forall b: nat :: b in h.proposals ==> b in h'.proposals && h'.proposals[b] == h.proposals[b])
    && Within(h.voters, h'.voters)
  }

  lemma ChosenStays(h: History, h': History, n: nat, b: nat)
    requires Grows(h, h') && RecordsOk(h', n) && Chosen(h, n, b)
    ensures Chosen(h', n, b) && End(h', b) == End(h, b)
  {
    SubsetSize(At(h.voters, b), At(h'.voters, b));
    forall i: nat | i in At(h'.voters, b) ensures i < n {
      assert Voted(h', i, b);
      RecordAt(h', n, i, b);
    }
  }

  lemma BeliefStays(h: History, h': History, n: nat, offset: nat, l: Learner, late: bool, j: nat)
    requires Grows(h, h') && RecordsOk(h', n) && BeliefOk(h, n, offset, l, late, j)
    ensures BeliefOk(h', n, offset, l, late, j)
  {
    if l.learned && l.owner != j {
      var b: nat :| Believed(h, n, offset, l, late, b);
      ChosenStays(h, h', n, b);
      assert Believed(h', n, offset, l, late, b);
    }
  }

  lemma AnnouncementStays(h: History, h': History, n: nat, offsets: seq<nat>, clock: nat, clock': nat, a: Announcement)
    requires Grows(h, h') && RecordsOk(h', n) && AnnouncementOk(h, n, offsets, clock, a) && clock <= clock'
    ensures AnnouncementOk(h', n, offsets, clock', a)
  {
    var b: nat :| Backed(h, n, offsets, clock, a, b);
    ChosenStays(h, h', n, b);
    assert Backed(h', n, offsets, clock', a, b);
  }

  /** A step that announces nothing and in which nobody learns anything. */
  lemma NoNews(s: System, s': System)
    requires NewsOk(s) && s'.Shaped() && |s'.ps| == |s.ps| && s'.offsets == s.offsets && s.clock <= s'.clock && s'.news == s.news
    requires Grows(s.h, s'.h) && RecordsOk(s'.h, |s.ps|)
    requires forall p :: p in s'.net && p.msg.LearnChosen? ==> p in s.net
    requires forall j: nat :: j < |s.ps| ==> s'.ls[j] == s.ls[j] || !s'.ls[j].learned
    ensures NewsOk(s')
  {
    var n := |s.ps|;
    forall a | a in s'.news.announced ensures AnnouncementOk(s'.h, n, s.offsets, s'.clock, a) {
      AnnouncementStays(s.h, s'.h, n, s.offsets, s.clock, s'.clock, a);
    }
    forall j: nat | j < n ensures BeliefOk(s'.h, n, s.offsets[j], s'.ls[j], j in s'.news.late, j) {
      if s'.ls[j].learned { BeliefStays(s.h, s'.h, n, s.offsets[j], s.ls[j], j in s.news.late, j); }
    }
  }

  // ----- steps with news

  lemma AnnouncedIsBacked(s: System, i: nat, m: Msg)
    requires Inv(s) && i < |s.ps| && s.ps[i].proposing
    requires s.ps[i].ProposeWon(s.configs[i], s.Now(i)) && s.ps[i].expire >= s.Now(i)
    requires m == LearnChosen(i, s.ps[i].owner, s.ps[i].expire - s.Now(i), s.ps[i].expire)
    ensures AnnouncementOk(s.h, |s.ps|, s.offsets, s.clock, Announcement(m, s.clock))
  {
    WonIsChosen(s, i);
    var b: nat :| Chosen(s.h, |s.ps|, b) && OwnerOf(b) == i && s.ps[i].expire == End(s.h, b) + s.offsets[i];
    assert Backed(s.h, |s.ps|, s.offsets, s.clock, Announcement(m, s.clock), b);
  }

  lemma AnnouncedGrows(news: News, m: Msg, a: Announcement)
    requires Announced(news, m)
    ensures Announced(news.(announced := news.announced + {a}), m)
  {
    var at: nat :| Announcement(m, at) in news.announced;
    assert Announcement(m, at) in news.announced + {a};
  }

  lemma AnnounceNews(s: System, i: nat)
    requires NewsOk(s) && Inv(s) && i < |s.ps| && s.ps[i].proposing
    requires s.ps[i].ProposeWon(s.configs[i], s.Now(i)) && s.ps[i].expire >= s.Now(i)
    ensures NewsOk(Announce(s, i))
  {
    var s', n := Announce(s, i), |s.ps|;
    var m := LearnChosen(i, s.ps[i].owner, s.ps[i].expire - s.Now(i), s.ps[i].expire);
    AnnouncedIsBacked(s, i, m);
    forall p | p in s'.net && p.msg.LearnChosen? ensures Announced(s'.news, p.msg) {
      if p in s.net {
        AnnouncedGrows(s.news, p.msg, Announcement(m, s.clock));
      } else {
        assert p.msg == m && Announcement(m, s.clock) in s'.news.announced;
      }
    }
    forall j: nat | j < n ensures BeliefOk(s'.h, n, s'.offsets[j], s'.ls[j], j in s'.news.late, j) {
      assert BeliefOk(s.h, n, s.offsets[j], s.ls[j], j in s.news.late, j);
    }
  }

  /** All announcements of one message were made at the same time. */
  lemma DelayedIs(s: System, m: Msg, at: nat)
    requires NewsOk(s) && Announcement(m, at) in s.news.announced
    ensures Delayed(s, m) <==> at + MARGIN < s.clock
  {
    var n := |s.ps|;
    var b: nat :| Backed(s.h, n, s.offsets, s.clock, Announcement(m, at), b);
    forall a | a in s.news.announced && a.msg == m ensures a.at == at {
      var c: nat :| Backed(s.h, n, s.offsets, s.clock, a, c);
    }
  }

  /** A node that takes an announcement over takes the lease to last longer than it does exactly if the announcement came
      later than the margin allows. */
  lemma Learns(s: System, i: nat, m: Msg)
    requires NewsOk(s) && i < |s.ps| && m.LearnChosen? && Announced(s.news, m)
    ensures BeliefOk(s.h, |s.ps|, s.offsets[i], DeliverLearn(s, i, m).ls[i], i in DeliverLearn(s, i, m).news.late, i)
  {
    var s', n := DeliverLearn(s, i, m), |s.ps|;
    var at: nat :| Announcement(m, at) in s.news.announced;
    var b: nat :| Backed(s.h, n, s.offsets, s.clock, Announcement(m, at), b);
    DelayedIs(s, m, at);
    var e := Until(i, m.owner, m.duration, m.localExpire, s.Now(i));
    if e >= s.Now(i) && m.owner != i {
      assert e == s.Now(i) + m.duration - MARGIN;
      assert Believed(s.h, n, s.offsets[i], s'.ls[i], i in s'.news.late, b);
    } else if e < s.Now(i) {
      assert BeliefOk(s.h, n, s.offsets[i], s.ls[i], i in s.news.late, i);
    }
  }

  lemma LearnNews(s: System, i: nat, m: Msg)
    requires NewsOk(s) && i < |s.ps| && m.LearnChosen? && Announced(s.news, m)
    ensures NewsOk(DeliverLearn(s, i, m))
  {
    var s', n := DeliverLearn(s, i, m), |s.ps|;
    Learns(s, i, m);
    forall p | p in s'.net && p.msg.LearnChosen? ensures Announced(s'.news, p.msg) {
      var at: nat :| Announcement(p.msg, at) in s.news.announced;
      assert Announcement(p.msg, at) in s'.news.announced;
    }
    forall j: nat | j < n ensures BeliefOk(s'.h, n, s.offsets[j], s'.ls[j], j in s'.news.late, j) {
      if j != i {
        assert BeliefOk(s.h, n, s.offsets[j], s.ls[j], j in s.news.late, j);
        assert j in s'.news.late <==> j in s.news.late;
      }
    }
  }

  // ----- whole steps

  /** The step changes neither learners nor news, and sends no announcement. */
  ghost predicate Quiet(s: System, s': System) {
    && |s'.ps| == |s.ps| && s'.offsets == s.offsets && s'.clock == s.clock && s'.ls == s.ls && s'.news == s.news
    && (forall p :: p in s'.net && p.msg.LearnChosen? ==> p in s.net) && Grows(s.h, s'.h)
  }

  lemma QuietPrepareRequest(s: System, p: Packet, filtered: bool)
    requires s.Shaped() && p.dest < |s.ps| && p.msg.PrepareRequest?
    ensures Quiet(s, Deliver(s, p, filtered))
  {
    var u := Notice(Take(s, p), p.dest, p.msg.ballot);
    assert Quiet(s, u);
    if !filtered { assert Quiet(u, AnswerPrepare(u, p.dest, p.msg.node, p.msg.ballot)); }
  }

  lemma QuietProposeRequest(s: System, p: Packet)
    requires s.Shaped() && p.dest < |s.ps| && p.msg.ProposeRequest?
    ensures Quiet(s, Deliver(s, p, false))
  {
    var u := Notice(Take(s, p), p.dest, p.msg.ballot);
    assert Quiet(s, u);
    QuietVote(u, p.dest, p.msg);
    QuietThen(s, u, AnswerPropose(u, p.dest, p.msg));
  }

  lemma QuietVote(s: System, i: nat, m: Msg)
    requires s.Shaped() && i < |s.ps| && m.ProposeRequest?
    ensures Quiet(s, AnswerPropose(s, i, m))
  {
  }

  lemma QuietStart(s: System, i: nat)
    requires s.Shaped() && i < |s.ps|
    ensures Quiet(s, Start(s, i))
  {
  }

  lemma QuietPropose(s: System, i: nat)
    requires s.Shaped() && i < |s.ps| && !Proposed(s.h, s.ps[i].ballot)
    ensures Quiet(s, Propose(s, i))
  {
  }

  lemma QuietThen(s: System, t: System, u: System)
    requires Quiet(s, t) && Quiet(t, u)
    ensures Quiet(s, u)
  {
    forall b: nat ensures At(s.h.voters, b) <= At(u.h.voters, b) { assert At(t.h.voters, b) <= At(u.h.voters, b); }
  }

  lemma QuietPrepareResponse(s: System, p: Packet)
    requires Inv(s) && p.dest < |s.ps| && p.msg.IsPrepareResponse()
    ensures Quiet(s, DeliverPrepareResponse(Take(s, p), p.dest, p.msg))
  {
    var t, i, m := Take(s, p), p.dest, p.msg;
    assert NodeOk(s, i);
    if t.ps[i].preparing && m.ballot == t.ps[i].ballot {
      var u := CountPrepare(t, i, m);
      assert Quiet(s, u);
      if u.ps[i].PrepareRefused(s.configs[i]) {
        QuietStart(u, i);
        QuietThen(s, u, Start(u, i));
      } else if u.ps[i].PrepareWon(s.configs[i]) {
        QuietPropose(u, i);
        QuietThen(s, u, Propose(u, i));
      }
    }
  }

  lemma QuietNews(s: System, s': System)
    requires NewsOk(s) && Inv(s') && Quiet(s, s')
    ensures NewsOk(s')
  {
    NoNews(s, s');
  }

  lemma ProposeResponseNews(s: System, p: Packet)
    requires NewsOk(s) && Inv(s) && p in s.net && p.dest < |s.ps| && p.msg.IsProposeResponse()
    ensures NewsOk(DeliverProposeResponse(Take(s, p), p.dest, p.msg))
  {
    var t, i, m := Take(s, p), p.dest, p.msg;
    assert PacketOk(s.h, |s.ps|, s.offsets, p);
    TakeKeeps(s, p);
    QuietNews(s, t);
    if t.ps[i].expire >= t.Now(i) && t.ps[i].proposing && m.ballot == t.ps[i].ballot {
      var u := CountPropose(t, i, m);
      CountProposeKeeps(t, i, m);
      QuietNews(t, u);
      if u.ps[i].ProposeWon(s.configs[i], s.Now(i)) {
        AnnounceNews(u, i);
      } else if u.ps[i].numReceived == |s.ps| {
        QuietStart(u, i);
        StartKeeps(u, i);
        QuietNews(u, Start(u, i));
      }
    }
  }

  lemma ReceiveNews(s: System, p: Packet, filtered: bool)
    requires NewsOk(s) && Inv(s) && Enabled(s, Receive(p, filtered), true)
    ensures NewsOk(Deliver(s, p, filtered))
  {
    if p.msg.IsRequest() {
      if p.msg.PrepareRequest? { QuietPrepareRequest(s, p, filtered); } else { QuietProposeRequest(s, p); }
      ReceiveKeeps(s, p, filtered);
      QuietNews(s, Deliver(s, p, filtered));
    } else if p.msg.IsPrepareResponse() {
      QuietPrepareResponse(s, p);
      ReceivePrepareResponseKeeps(s, p);
      QuietNews(s, DeliverPrepareResponse(Take(s, p), p.dest, p.msg));
    } else if p.msg.IsProposeResponse() {
      ProposeResponseNews(s, p);
    } else {
      TakeKeeps(s, p);
      QuietNews(s, Take(s, p));
      LearnNews(Take(s, p), p.dest, p.msg);
    }
  }

  lemma StepNews(s: System, e: Event)
    requires NewsOk(s) && Inv(s) && Enabled(s, e, true)
    ensures NewsOk(Step(s, e))
  {
    if e.Receive? {
      ReceiveNews(s, e.packet, e.filtered);
    } else {
      StepKeeps(s, e);
      StepShaped(s, e);
      if e.Acquire? { QuietStart(s, e.node); }
      NoNews(s, Step(s, e));
    }
  }

  lemma {:induction false} RunNews(states: seq<System>, events: seq<Event>, k: nat)
    requires Run(states, events, true) && k <= |events|
    ensures Inv(states[k]) && NewsOk(states[k])
  {
    RunInv(states, events, k);
    if k > 0 {
      RunNews(states, events, k - 1);
      StepNews(states[k - 1], events[k - 1]);
    }
  }

  // ----- what nodes answer

  /** Node j has taken over an announcement that came too late, at step e. */
  ghost predicate HeardLate(s: System, e: Event, j: nat) {
    e.Receive? && e.packet.dest == j && e.packet.msg.LearnChosen? && Delayed(s, e.packet.msg)
  }

  lemma LateStep(s: System, e: Event, j: nat)
    requires s.Shaped() && Enabled(s, e, true) && j in Step(s, e).news.late && !HeardLate(s, e, j)
    ensures j in s.news.late
  {
    if e.Receive? {
      var t := Take(s, e.packet);
      assert t.news == s.news && t.clock == s.clock;
      if e.packet.msg.LearnChosen? { assert Delayed(t, e.packet.msg) <==> Delayed(s, e.packet.msg); }
    }
  }

  lemma {:induction false} LateWasHeard(states: seq<System>, events: seq<Event>, k: nat, j: nat)
    requires Run(states, events, true) && k <= |events| && j in states[k].news.late
    ensures exists e: nat :: e < k && HeardLate(states[e], events[e], j)
  {
    if k > 0 && !HeardLate(states[k - 1], events[k - 1], j) {
      LateStep(states[k - 1], events[k - 1], j);
      LateWasHeard(states, events, k - 1, j);
    }
  }

  /** What a learner answers to GetLeaseOwner at global time t. */
  ghost predicate NamesAt(l: Learner, offset: nat, i: nat, t: nat) { l.IsLeaseOwner(i, t + offset) }

  /** From now on it names i only until time `end`. */
  ghost predicate NamesUntil(l: Learner, offset: nat, i: nat, clock: nat, end: nat) {
    forall t: nat :: clock <= t && NamesAt(l, offset, i, t) ==> t <= end
  }

  /** From now on, whenever l names i, so does l'. */
  ghost predicate Confirmed(l: Learner, offset: nat, i: nat, clock: nat, l': Learner, offset': nat) {
    forall t: nat :: clock <= t && NamesAt(l, offset, i, t) ==> NamesAt(l', offset', i, t)
  }

  lemma BeliefValue(l: Learner, offset: nat, i: nat, clock: nat, end: nat)
    requires NamesAt(l, offset, i, clock)
    ensures l.expire > end + offset <==> !NamesUntil(l, offset, i, clock, end)
  {
    if l.expire > end + offset { assert NamesAt(l, offset, i, l.expire - offset); }
  }

  lemma ConfirmedValue(l: Learner, offset: nat, i: nat, clock: nat, l': Learner, offset': nat, end: nat)
    requires NamesAt(l, offset, i, clock) && l'.learned && l'.owner == i && l'.expire == end + offset'
    ensures Confirmed(l, offset, i, clock, l', offset') <==> NamesUntil(l, offset, i, clock, end)
  {
    forall t: nat | clock <= t ensures NamesAt(l', offset', i, t) <==> t <= end {}
  }

  /** The time a belief ends: node j takes the lease of node i to last no longer than it does exactly if it has learned of
      it in time. If node i knows its own lease, that is: whenever node j names it, now or later, it answers true itself. */
  lemma BeliefEnds(states: seq<System>, events: seq<Event>, k: nat, i: nat, j: nat) returns (b: nat)
    requires Run(states, events, true) && k <= |events| && states[k].Shaped() && i < |states[k].ls| && j < |states[k].ls|
    requires i != j && Names(states[k], j, i)
    ensures var s := states[k];
      && Chosen(s.h, |s.ps|, b) && OwnerOf(b) == i
      && (j !in s.news.late <==> NamesUntil(s.ls[j], s.offsets[j], i, s.clock, End(s.h, b)))
      && (s.ls[i].learned && s.ls[i].owner == i && s.ls[i].expire == End(s.h, b) + s.offsets[i] ==>
            (j !in s.news.late <==> Confirmed(s.ls[j], s.offsets[j], i, s.clock, s.ls[i], s.offsets[i])))
  {
    var s := states[k];
    RunNews(states, events, k);
    b := BeliefOf(s, i, j);
    BeliefValue(s.ls[j], s.offsets[j], i, s.clock, End(s.h, b));
    if s.ls[i].learned && s.ls[i].owner == i && s.ls[i].expire == End(s.h, b) + s.offsets[i] {
      ConfirmedValue(s.ls[j], s.offsets[j], i, s.clock, s.ls[i], s.offsets[i], End(s.h, b));
    }
  }

  lemma BeliefOf(s: System, i: nat, j: nat) returns (b: nat)
    requires NewsOk(s) && j < |s.ls| && i != j && Names(s, j, i)
    ensures Chosen(s.h, |s.ps|, b) && OwnerOf(b) == i && (j in s.news.late <==> s.ls[j].expire > End(s.h, b) + s.offsets[j])
  {
    assert BeliefOk(s.h, |s.ps|, s.offsets[j], s.ls[j], j in s.news.late, j);
    b :| Believed(s.h, |s.ps|, s.offsets[j], s.ls[j], j in s.news.late, b);
  }

  /** Agreement: in every strict run, if node j names i and node l answers true, then l is i, unless node j has learned of the
      lease late, or one of the leases is in its last tick and a timer fires on it. */
  lemma LeaseAgreement(states: seq<System>, events: seq<Event>, k: nat, i: nat, j: nat, l: nat)
    requires Run(states, events, true) && k <= |events| && states[k].Shaped()
    requires j < |states[k].ls| && l < |states[k].ls| && i != j && Names(states[k], j, i) && Owns(states[k], l)
    ensures || i == l || (j in states[k].news.late && exists e: nat :: e < k && HeardLate(states[e], events[e], j))
            || ((LastTick(states[k], j) || LastTick(states[k], l)) && FiredOnTick(states, events, k, states[k].clock))
  {
    var s := states[k];
    RunNews(states, events, k);
    if j in s.news.late {
      LateWasHeard(states, events, k, j);
    } else if i != l {
      var b := BeliefOf(s, i, j);
      var c := OwnerHasLease(s, l);
      assert ProposalOk(s.h, |s.ps|, s.clock, b);
      if b < c {
        Overlap(s.h, |s.ps|, s.clock, b, c);
      } else {
        Overlap(s.h, |s.ps|, s.clock, c, b);
      }
      OnTickRecorded(states, events, k, s.clock);
    }
  }

  // ----- announcements are what was sent

  lemma AnnouncedStep(s: System, e: Event, a: Announcement)
    requires s.Shaped() && Enabled(s, e, true) && a in Step(s, e).news.announced && a !in s.news.announced
    ensures a.at == s.clock && e.Receive? && e.packet.msg.IsProposeResponse() && Packet(0, a.msg) in Step(s, e).net
  {
  }

  /** The recorded time of an announcement is the time at which it was sent to all nodes. */
  lemma {:induction false} AnnouncedWhen(states: seq<System>, events: seq<Event>, k: nat, a: Announcement) returns (e: nat)
    requires Run(states, events, true) && k <= |events| && a in states[k].news.announced
    ensures e < k && Sends(states[e], events[e], a)
  {
    e := k - 1;
    if a in states[e].news.announced {
      e := AnnouncedWhen(states, events, e, a);
    } else {
      AnnouncedStep(states[e], events[e], a);
    }
  }

  /** The step announces a to all nodes, at the recorded time. */
  ghost predicate Sends(s: System, e: Event, a: Announcement) {
    s.Shaped() && Enabled(s, e, true) && s.clock == a.at && a !in s.news.announced && Packet(0, a.msg) in Step(s, e).net
  }
}
