/** A rebuild as a sequence of decisions, each in a state of the tables and counters that the result determines
    (tair/table_builder.cpp:438-502). */
module Moments {
  import opened Counting
  import opened Tables
  import opened Tallies
  import opened Books
  import opened Passes
  import opened Decisions

  // ----- the running totals

  /** Slave slots of bucket b below `line` that s holds. */
  ghost function InColumn(t: Table, b: nat, line: nat, s: Server): nat
    requires line <= |t| && forall l :: 0 <= l < |t| ==> b < |t[l]|
  {
    if line <= 1 then 0 else InColumn(t, b, line - 1, s) + One(t[line - 1][b] == s)
  }

  /** Slave slots of the buckets below b that s holds. */
  ghost function InColumns(t: Table, b: nat, s: Server): nat
    requires forall l :: 0 <= l < |t| ==> b <= |t[l]|
  {
    if b == 0 then 0 else InColumns(t, b - 1, s) + InColumn(t, b - 1, |t|, s)
  }

  lemma {:induction false} InColumnSame(t: Table, t': Table, b: nat, line: nat, s: Server)
    requires |t| == |t'| && line <= |t| && forall l :: 0 <= l < |t| ==> b < |t[l]| && b < |t'[l]|
    requires forall l :: 0 <= l < line ==> t'[l][b] == t[l][b]
    ensures InColumn(t', b, line, s) == InColumn(t, b, line, s)
  {
    if line > 1 { InColumnSame(t, t', b, line - 1, s); }
  }

  lemma {:induction false} InColumnsSame(t: Table, t': Table, b: nat, s: Server)
    requires |t| == |t'| && forall l :: 0 <= l < |t| ==> b <= |t[l]| && b <= |t'[l]|
    requires forall l, c :: 0 <= l < |t| && 0 <= c < b ==> t'[l][c] == t[l][c]
    ensures InColumns(t', b, s) == InColumns(t, b, s)
  {
    if b > 0 {
      InColumnsSame(t, t', b - 1, s);
      InColumnSame(t, t', b - 1, |t|, s);
    }
  }

  /** The running totals count the masters and the slave slots treated so far. */
  ghost predicate NowCounts(now: map<Server, int>, t: Table, servers: seq<Server>, b: nat, line: nat)
    requires |t| > 0 && line <= |t| && forall l :: 0 <= l < |t| ==> b < |t[l]|
  {
    forall s :: s in servers ==> Lookup(now, s) == multiset(t[0])[s] + InColumns(t, b, s) + InColumn(t, b, line, s)
  }

  /** x has one slot more. */
  ghost predicate OneMore(now: map<Server, int>, now': map<Server, int>, x: Server) {
    forall s :: Lookup(now', s) == Lookup(now, s) + One(s == x)
  }

  /** In the first pass, the masters of the buckets treated. */
  ghost predicate NowMasters(now: map<Server, int>, line: seq<Server>, servers: seq<Server>, b: nat)
    requires b <= |line|
  {
    forall s :: s in servers ==> Lookup(now, s) == multiset(line[..b])[s]
  }

  // ----- pass 2

  /** The same builder at another moment. */
  ghost predicate Like(v: View, f: View) {
    v == f.(copies := v.copies, masters := v.masters, now := v.now, maxCountNow := v.maxCountNow, table := v.table)
  }

  ghost predicate Exact(v: View) {
    Ledger(v.table, v.copies, v.masters, v.copyCap, v.masterCap, v.servers, v.copyCount, v.bucketCount)
  }

  predicate Treated(c: nat, l: nat, b: nat, line: nat) { c < b || (c == b && l < line) }

  /** The state when slot (line, b) is treated: earlier slots are as in t, the others as in t1, and all counters are exact. */
  ghost predicate AtSlot(v: View, t1: Table, t: Table, b: nat, line: nat)
    requires Shaped(t1, v.copyCount, v.bucketCount) && Shaped(t, v.copyCount, v.bucketCount)
  {
    && Exact(v) && v.Slot(line, b) && line >= 1
    && (forall l: nat, c: nat :: l < v.copyCount && c < v.bucketCount ==>
          v.table[l][c] == if Treated(c, l, b, line) then t[l][c] else t1[l][c])
    && NowCounts(v.now, v.table, v.servers, b, line)
  }

  /** The holder of slot (line, b) in t was decided in that state. */
  ghost predicate SlaveExplained(f: View, t1: Table, t: Table, b: nat, line: nat)
    requires Shaped(t1, f.copyCount, f.bucketCount) && Shaped(t, f.copyCount, f.bucketCount) && line < f.copyCount && b < f.bucketCount
  {
    exists v :: Like(v, f) && AtSlot(v, t1, t, b, line) && v.SlaveDecided(line, b, t[line][b])
  }

  ghost predicate SlavesExplained(f: View, t1: Table, t: Table, b: nat, line: nat)
    requires Shaped(t1, f.copyCount, f.bucketCount) && Shaped(t, f.copyCount, f.bucketCount)
  {
    forall c: nat, l: nat {:trigger SlaveExplained(f, t1, t, c, l)} ::
      c < f.bucketCount && 1 <= l < f.copyCount && Treated(c, l, b, line) ==> SlaveExplained(f, t1, t, c, l)
  }

  /** Later decisions do not change why earlier ones were taken. */
  lemma ExplainedStays(f: View, t1: Table, t: Table, t': Table, b: nat, line: nat)
    requires Shaped(t1, f.copyCount, f.bucketCount) && Shaped(t, f.copyCount, f.bucketCount) && Shaped(t', f.copyCount, f.bucketCount)
    requires line < f.copyCount && b < f.bucketCount && SlaveExplained(f, t1, t, b, line)
    requires forall l: nat, c: nat :: l < f.copyCount && c < f.bucketCount && Treated(c, l, b, line + 1) ==> t'[l][c] == t[l][c]
    ensures SlaveExplained(f, t1, t', b, line)
  {
    var v :| Like(v, f) && AtSlot(v, t1, t, b, line) && v.SlaveDecided(line, b, t[line][b]);
    assert Treated(b, line, b, line + 1);
    forall l: nat, c: nat | l < v.copyCount && c < v.bucketCount
      ensures v.table[l][c] == if Treated(c, l, b, line) then t'[l][c] else t1[l][c]
    {
      if Treated(c, l, b, line) { assert Treated(c, l, b, line + 1); }
    }
    assert AtSlot(v, t1, t', b, line);
  }

  lemma NewlyExplained(f: View, t1: Table, v: View, b: nat, line: nat, x: Server)
    requires Shaped(t1, f.copyCount, f.bucketCount) && Like(v, f) && v.Slot(line, b) && line >= 1
    requires AtSlot(v, t1, v.table, b, line) && v.SlaveDecided(line, b, x)
    ensures SlaveExplained(f, t1, Put(v.table, line, b, x), b, line)
  {
    var t' := Put(v.table, line, b, x);
    forall l: nat, c: nat | l < v.copyCount && c < v.bucketCount
      ensures v.table[l][c] == if Treated(c, l, b, line) then t'[l][c] else t1[l][c] {}
    assert AtSlot(v, t1, t', b, line) && t'[line][b] == x;
  }

  lemma SlaveStepAt(f: View, t1: Table, t: Table, b: nat, line: nat, x: Server, c: nat, l: nat)
    requires Shaped(t1, f.copyCount, f.bucketCount) && Shaped(t, f.copyCount, f.bucketCount) && line < f.copyCount && b < f.bucketCount
    requires c < f.bucketCount && 1 <= l < f.copyCount && Treated(c, l, b, line) && SlaveExplained(f, t1, t, c, l)
    ensures SlaveExplained(f, t1, Put(t, line, b, x), c, l)
  {
    EarlierSlots(f.copyCount, f.bucketCount, t, b, line, x, c, l);
    ExplainedStays(f, t1, t, Put(t, line, b, x), c, l);
  }

  lemma EarlierSlots(copies: nat, buckets: nat, t: Table, b: nat, line: nat, x: Server, c: nat, l: nat)
    requires Shaped(t, copies, buckets) && line < copies && b < buckets && c < buckets && l < copies && Treated(c, l, b, line)
    ensures forall l': nat, c': nat :: l' < copies && c' < buckets && Treated(c', l', c, l + 1) ==> Put(t, line, b, x)[l'][c'] == t[l'][c']
  {
  }

  lemma SlaveStepExplained(f: View, t1: Table, t: Table, b: nat, line: nat, x: Server)
    requires Shaped(t1, f.copyCount, f.bucketCount) && Shaped(t, f.copyCount, f.bucketCount) && 1 <= line < f.copyCount && b < f.bucketCount
    requires SlavesExplained(f, t1, t, b, line) && SlaveExplained(f, t1, Put(t, line, b, x), b, line)
    ensures SlavesExplained(f, t1, Put(t, line, b, x), b, line + 1)
  {
    forall c: nat, l: nat | c < f.bucketCount && 1 <= l < f.copyCount && Treated(c, l, b, line + 1)
      ensures SlaveExplained(f, t1, Put(t, line, b, x), c, l)
    {
      if c != b || l != line { SlaveStepAt(f, t1, t, b, line, x, c, l); }
    }
  }

  lemma SlotState(v: View, t1: Table, racks: bool, b: nat, line: nat)
    requires Exact(v) && v.Slot(line, b) && line >= 1 && Shaped(t1, v.copyCount, v.bucketCount)
    requires SecondPassing(t1, v.table, v.servers, racks, b, line, v.bucketCount) && NowCounts(v.now, v.table, v.servers, b, line)
    ensures AtSlot(v, t1, v.table, b, line)
  {
    forall l: nat, c: nat | l < v.copyCount && c < v.bucketCount && !Treated(c, l, b, line) ensures v.table[l][c] == t1[l][c] {
      assert Column(v.table, c)[l] == v.table[l][c] && Column(t1, c)[l] == t1[l][c];
    }
  }

  /** The totals after one more slot. */
  lemma NowCountsStep(now: map<Server, int>, t: Table, servers: seq<Server>, b: nat, line: nat, x: Server, now': map<Server, int>)
    requires 1 <= line < |t| && (forall l :: 0 <= l < |t| ==> b < |t[l]|) && NowCounts(now, t, servers, b, line)
    requires OneMore(now, now', x)
    ensures NowCounts(now', Put(t, line, b, x), servers, b, line + 1)
  {
    var t' := Put(t, line, b, x);
    forall s | s in servers
      ensures Lookup(now', s) == multiset(t'[0])[s] + InColumns(t', b, s) + InColumn(t', b, line + 1, s)
    {
      InColumnsSame(t, t', b, s);
      InColumnSame(t, t', b, line, s);
    }
  }

  /** ... and at the next bucket. */
  lemma NowCountsNext(now: map<Server, int>, t: Table, servers: seq<Server>, b: nat)
    requires |t| > 0 && (forall l :: 0 <= l < |t| ==> b + 1 < |t[l]|) && NowCounts(now, t, servers, b, |t|)
    ensures NowCounts(now, t, servers, b + 1, 1)
  {
  }

  /** Pass 2 in the middle of bucket b. */
  ghost predicate Progress(t: Table, now: map<Server, int>, servers: seq<Server>, t1: Table, racks: bool, b: nat, line: nat, buckets: nat) {
    && Shaped(t1, |t1|, buckets) && Shaped(t, |t1|, buckets) && b < buckets && 1 <= line <= |t1|
    && SecondPassing(t1, t, servers, racks, b, line, buckets) && NowCounts(now, t, servers, b, line)
  }

  ghost predicate InPass(v: View, f: View, t1: Table, racks: bool, b: nat, line: nat) {
    && |t1| == v.copyCount && Progress(v.table, v.now, v.servers, t1, racks, b, line, v.bucketCount)
    && Exact(v) && Like(v, f) && SlavesExplained(f, t1, v.table, b, line)
  }

  lemma ProgressStep(t: Table, now: map<Server, int>, servers: seq<Server>, t1: Table, racks: bool, b: nat, line: nat, buckets: nat, x: Server,
                     now': map<Server, int>)
    requires Progress(t, now, servers, t1, racks, b, line, buckets) && line < |t1|
    requires x in servers && ClearOf(x, Column(t, b), line) && (racks ==> TwoPositions(Column(t, b)[line := x]))
    requires OneMore(now, now', x)
    ensures Progress(Put(t, line, b, x), now', servers, t1, racks, b, line + 1, buckets)
  {
    SecondPassStep(t1, t, x, servers, racks, b, line, buckets);
    NowCountsStep(now, t, servers, b, line, x, now');
  }

  lemma ExplainStep(v: View, f: View, t1: Table, racks: bool, b: nat, line: nat, x: Server)
    requires |t1| == v.copyCount && Progress(v.table, v.now, v.servers, t1, racks, b, line, v.bucketCount)
    requires Exact(v) && Like(v, f) && SlavesExplained(f, t1, v.table, b, line)
    requires line < v.copyCount && v.SlaveDecided(line, b, x)
    ensures SlavesExplained(f, t1, Put(v.table, line, b, x), b, line + 1)
  {
    ExplainSlot(v, f, t1, racks, b, line, x);
    SlaveStepExplained(f, t1, v.table, b, line, x);
  }

  lemma ExplainSlot(v: View, f: View, t1: Table, racks: bool, b: nat, line: nat, x: Server)
    requires |t1| == v.copyCount && Progress(v.table, v.now, v.servers, t1, racks, b, line, v.bucketCount)
    requires Exact(v) && Like(v, f) && line < v.copyCount && v.SlaveDecided(line, b, x)
    ensures SlaveExplained(f, t1, Put(v.table, line, b, x), b, line)
  {
    SlotState(v, t1, racks, b, line);
    NewlyExplained(f, t1, v, b, line, x);
  }

  /** One slot more. */
  lemma InPassStep(v: View, f: View, t1: Table, racks: bool, b: nat, line: nat, x: Server, v': View)
    requires InPass(v, f, t1, racks, b, line) && line < v.copyCount && v.SlaveDecided(line, b, x)
    requires x in v.servers && ClearOf(x, Column(v.table, b), line) && (racks ==> TwoPositions(Column(v.table, b)[line := x]))
    requires Exact(v') && Like(v', f) && v'.table == Put(v.table, line, b, x) && OneMore(v.now, v'.now, x)
    ensures InPass(v', f, t1, racks, b, line + 1)
  {
    ProgressStep(v.table, v.now, v.servers, t1, racks, b, line, v.bucketCount, x, v'.now);
    ExplainStep(v, f, t1, racks, b, line, x);
  }

  /** Pass 2 between buckets. */
  ghost predicate BetweenBuckets(v: View, f: View, t1: Table, racks: bool, b: nat) {
    && Exact(v) && Like(v, f) && Shaped(t1, v.copyCount, v.bucketCount) && b <= v.bucketCount
    && SecondPassed(t1, v.table, v.servers, racks, b, v.bucketCount)
    && (b < v.bucketCount ==> NowCounts(v.now, v.table, v.servers, b, 1)) && SlavesExplained(f, t1, v.table, b, 1)
  }

  lemma StartPass(v: View, f: View, racks: bool)
    requires Exact(v) && NowMasters(v.now, v.table[0], v.servers, v.bucketCount) && Like(v, f)
    ensures BetweenBuckets(v, f, v.table, racks, 0)
  {
    assert v.table[0][..v.bucketCount] == v.table[0];
  }

  lemma EnterBucket(v: View, f: View, t1: Table, racks: bool, b: nat)
    requires BetweenBuckets(v, f, t1, racks, b) && b < v.bucketCount
    ensures InPass(v, f, t1, racks, b, 1)
  {
  }

  lemma LeaveBucket(v: View, f: View, t1: Table, racks: bool, b: nat)
    requires InPass(v, f, t1, racks, b, v.copyCount)
    ensures BetweenBuckets(v, f, t1, racks, b + 1)
  {
    if b + 1 < v.bucketCount { NowCountsNext(v.now, v.table, v.servers, b); }
    forall c: nat, l: nat | c < f.bucketCount && 1 <= l < f.copyCount && Treated(c, l, b + 1, 1) ensures SlaveExplained(f, t1, v.table, c, l) {
      assert Treated(c, l, b, v.copyCount);
    }
  }

  // ----- positions

  /** Nobody was accepted at the levels that look at positions: neither the old holder nor, for the emptied slot, any
      server they see. */
  ghost predicate Forced(f: View, t1: Table, t: Table, b: nat, line: nat)
    requires Shaped(t1, f.copyCount, f.bucketCount) && Shaped(t, f.copyCount, f.bucketCount) && line < f.copyCount && b < f.bucketCount
  {
    exists v :: Like(v, f) && AtSlot(v, t1, t, b, line) && Refused(v, b, line)
  }

  ghost predicate Refused(v: View, b: nat, line: nat)
    requires v.Slot(line, b)
  {
    var w := v.Clear(line, b);
    && v.Judge(v.table[line][b], line, b, CONSIDER_ALL, true) != NodeOk
    && forall level, s :: CONSIDER_ALL <= level < CONSIDER_BASE && Visible(w.copies.bySurplus, level, s) ==> !w.Accepts(s, line, b, level)
  }

  lemma SharedRefused(v: View, b: nat, k: nat, line: nat, x: Server)
    requires v.Slot(line, b) && v.strategy.LoadBalance? && k < line && v.table[k][b].pos == x.pos && v.SlaveDecided(line, b, x)
    ensures Refused(v, b, line)
  {
    var e, w := v.table[line][b], v.Clear(line, b);
    assert Column(v.table, b)[k].pos == x.pos && Column(w.table, b)[k].pos == x.pos;
    if v.Judge(e, line, b, CONSIDER_ALL, true) != NodeOk {
      var level :| w.FoundAt(line, b, e, x, level);
      assert w.Accepts(x, line, b, level);
      assert level >= CONSIDER_BASE;
    }
  }

  /** With strategy 1, a slave in the position of an earlier copy of its bucket is there for want of any other that the
      stricter levels could see. */
  lemma SharedIsForced(f: View, t1: Table, t: Table, b: nat, k: nat, line: nat)
    requires Shaped(t1, f.copyCount, f.bucketCount) && Shaped(t, f.copyCount, f.bucketCount) && f.strategy.LoadBalance?
    requires k < line < f.copyCount && b < f.bucketCount && SlaveExplained(f, t1, t, b, line) && t[k][b].pos == t[line][b].pos
    ensures Forced(f, t1, t, b, line)
  {
    var v :| Like(v, f) && AtSlot(v, t1, t, b, line) && v.SlaveDecided(line, b, t[line][b]);
    assert Treated(b, k, b, line);
    SharedRefused(v, b, k, line, t[line][b]);
  }

  // ----- pass 1

  /** The state when the master of bucket b is treated. */
  ghost predicate AtBucket(v: View, t0: Table, t: Table, b: nat)
    requires Shaped(t0, v.copyCount, v.bucketCount) && Shaped(t, v.copyCount, v.bucketCount)
  {
    && Exact(v) && v.Slot(0, b)
    && (forall l: nat, c: nat :: l < v.copyCount && c < v.bucketCount ==> v.table[l][c] == if c < b then t[l][c] else t0[l][c])
    && NowMasters(v.now, v.table[0], v.servers, b)
  }

  ghost predicate MasterExplained(f: View, t0: Table, t: Table, b: nat)
    requires Shaped(t0, f.copyCount, f.bucketCount) && Shaped(t, f.copyCount, f.bucketCount) && b < f.bucketCount && f.copyCount > 0
  {
    exists v, u :: Like(v, f) && AtBucket(v, t0, t, b) && v.MasterDecided(b, u) && SameColumn(u, t, b)
  }

  ghost predicate MastersExplained(f: View, t0: Table, t: Table, b: nat)
    requires Shaped(t0, f.copyCount, f.bucketCount) && Shaped(t, f.copyCount, f.bucketCount) && f.copyCount > 0
  {
    forall c: nat {:trigger MasterExplained(f, t0, t, c)} :: c < b && c < f.bucketCount ==> MasterExplained(f, t0, t, c)
  }

  lemma MasterStays(f: View, t0: Table, t: Table, t': Table, b: nat)
    requires Shaped(t0, f.copyCount, f.bucketCount) && Shaped(t, f.copyCount, f.bucketCount) && Shaped(t', f.copyCount, f.bucketCount)
    requires b < f.bucketCount && f.copyCount > 0 && MasterExplained(f, t0, t, b)
    requires forall l: nat, c: nat :: l < f.copyCount && c <= b ==> t'[l][c] == t[l][c]
    ensures MasterExplained(f, t0, t', b)
  {
    var v, u :| Like(v, f) && AtBucket(v, t0, t, b) && v.MasterDecided(b, u) && SameColumn(u, t, b);
    AtBucketStays(v, t0, t, t', b);
    assert SameColumn(u, t', b);
  }

  lemma AtBucketStays(v: View, t0: Table, t: Table, t': Table, b: nat)
    requires Shaped(t0, v.copyCount, v.bucketCount) && Shaped(t, v.copyCount, v.bucketCount) && Shaped(t', v.copyCount, v.bucketCount)
    requires b < v.bucketCount && AtBucket(v, t0, t, b) && forall l: nat, c: nat :: l < v.copyCount && c <= b ==> t'[l][c] == t[l][c]
    ensures AtBucket(v, t0, t', b)
  {
  }

  lemma NewMasterExplained(f: View, t0: Table, v: View, b: nat, t': Table)
    requires Shaped(t0, f.copyCount, f.bucketCount) && Shaped(t', f.copyCount, f.bucketCount) && Like(v, f) && v.Slot(0, b)
    requires AtBucket(v, t0, v.table, b) && v.MasterDecided(b, t')
    requires forall k: nat :: k < f.bucketCount && k != b ==> SameColumn(v.table, t', k)
    ensures MasterExplained(f, t0, t', b)
  {
    AtBucketMoves(v, t0, b, t');
    assert SameColumn(t', t', b);
  }

  lemma AtBucketMoves(v: View, t0: Table, b: nat, t': Table)
    requires Shaped(t0, v.copyCount, v.bucketCount) && Shaped(t', v.copyCount, v.bucketCount) && v.Slot(0, b) && AtBucket(v, t0, v.table, b)
    requires forall k: nat :: k < v.bucketCount && k != b ==> SameColumn(v.table, t', k)
    ensures AtBucket(v, t0, t', b)
  {
    forall l: nat, c: nat | l < v.copyCount && c < v.bucketCount ensures v.table[l][c] == if c < b then t'[l][c] else t0[l][c] {
      if c < b { assert SameColumn(v.table, t', c); }
    }
  }

  lemma MasterStepExplained(f: View, t0: Table, t: Table, b: nat, t': Table)
    requires Shaped(t0, f.copyCount, f.bucketCount) && Shaped(t, f.copyCount, f.bucketCount) && Shaped(t', f.copyCount, f.bucketCount)
    requires b < f.bucketCount && f.copyCount > 0 && MastersExplained(f, t0, t, b) && MasterExplained(f, t0, t', b)
    requires forall k: nat :: k < f.bucketCount && k != b ==> SameColumn(t, t', k)
    ensures MastersExplained(f, t0, t', b + 1)
  {
    forall c: nat | c < b + 1 && c < f.bucketCount ensures MasterExplained(f, t0, t', c) {
      if c < b { MasterStepAt(f, t0, t, b, t', c); }
    }
  }

  lemma MasterStepAt(f: View, t0: Table, t: Table, b: nat, t': Table, c: nat)
    requires Shaped(t0, f.copyCount, f.bucketCount) && Shaped(t, f.copyCount, f.bucketCount) && Shaped(t', f.copyCount, f.bucketCount)
    requires c < b < f.bucketCount && f.copyCount > 0 && MasterExplained(f, t0, t, c)
    requires forall k: nat :: k < f.bucketCount && k != b ==> SameColumn(t, t', k)
    ensures MasterExplained(f, t0, t', c)
  {
    forall l: nat, k: nat | l < f.copyCount && k <= c ensures t'[l][k] == t[l][k] { assert SameColumn(t, t', k); }
    MasterStays(f, t0, t, t', c);
  }

  /** Pass 1 before bucket b. */
  ghost predicate InFirstPass(v: View, f: View, t0: Table, b: nat) {
    && Exact(v) && Like(v, f) && Shaped(t0, v.copyCount, v.bucketCount) && b <= v.bucketCount
    && FirstPassed(t0, v.table, v.masters.count, v.masterCap, v.servers, b, v.bucketCount)
    && NowMasters(v.now, v.table[0], v.servers, b) && MastersExplained(f, t0, v.table, b)
  }

  lemma StartFirst(v: View)
    requires Exact(v) && NowMasters(v.now, v.table[0], v.servers, 0)
    ensures InFirstPass(v, v, v.table, 0)
  {
  }

  lemma BucketState(v: View, t0: Table, b: nat)
    requires Exact(v) && v.Slot(0, b) && Shaped(t0, v.copyCount, v.bucketCount) && NowMasters(v.now, v.table[0], v.servers, b)
    requires FirstPassed(t0, v.table, v.masters.count, v.masterCap, v.servers, b, v.bucketCount)
    ensures AtBucket(v, t0, v.table, b)
  {
    forall l: nat, c: nat | l < v.copyCount && b <= c < v.bucketCount ensures v.table[l][c] == t0[l][c] {
      assert SameColumn(t0, v.table, c);
    }
  }

  lemma NowMastersStep(now: map<Server, int>, now': map<Server, int>, line: seq<Server>, line': seq<Server>, servers: seq<Server>, b: nat)
    requires b < |line| == |line'| && NowMasters(now, line, servers, b) && OneMore(now, now', line'[b]) && line'[..b] == line[..b]
    ensures NowMasters(now', line', servers, b + 1)
  {
    assert line'[..b + 1] == line[..b] + [line'[b]];
  }

  lemma ExplainMaster(v: View, f: View, t0: Table, b: nat, t': Table)
    requires InFirstPass(v, f, t0, b) && b < v.bucketCount && Shaped(t', v.copyCount, v.bucketCount) && v.MasterDecided(b, t')
    requires forall k: nat :: k < v.bucketCount && k != b ==> SameColumn(v.table, t', k)
    ensures MastersExplained(f, t0, t', b + 1)
  {
    BucketState(v, t0, b);
    NewMasterExplained(f, t0, v, b, t');
    MasterStepExplained(f, t0, v.table, b, t');
  }

  /** The master of bucket b has got its decision, which the running totals do not show yet. */
  ghost predicate MasterPlaced(v: View, u: View, b: nat) {
    && Exact(v) && v.Slot(0, b) && Exact(u) && Like(u, v) && u.now == v.now && v.MasterDecided(b, u.table)
    && MasterSettled(v.table, u.table, v.masters.count, u.masters.count, v.masterCap, v.servers, b, v.bucketCount)
  }

  /** ... which they do. */
  ghost predicate MasterTreated(v: View, v': View, b: nat) {
    && Exact(v) && v.Slot(0, b) && Exact(v') && Like(v', v) && v.MasterDecided(b, v'.table)
    && MasterSettled(v.table, v'.table, v.masters.count, v'.masters.count, v.masterCap, v.servers, b, v.bucketCount)
    && OneMore(v.now, v'.now, v'.table[0][b])
  }

  lemma MasterNoted(v: View, u: View, v': View, b: nat)
    requires MasterPlaced(v, u, b) && v' == u.(now := v'.now, maxCountNow := v'.maxCountNow) && OneMore(u.now, v'.now, u.table[0][b])
    ensures MasterTreated(v, v', b)
  {
  }

  lemma FirstStep(v: View, f: View, t0: Table, b: nat, v': View)
    requires InFirstPass(v, f, t0, b) && b < v.bucketCount && MasterTreated(v, v', b)
    ensures InFirstPass(v', f, t0, b + 1)
  {
    FirstProgress(t0, v.table, v'.table, v.masters.count, v'.masters.count, v.masterCap, v.servers, b, v.bucketCount, v.now, v'.now);
    ExplainMaster(v, f, t0, b, v'.table);
  }

  lemma FirstProgress(t0: Table, t: Table, t': Table, m: map<Server, int>, m': map<Server, int>, cap: map<Server, int>,
                      servers: seq<Server>, b: nat, buckets: nat, now: map<Server, int>, now': map<Server, int>)
    requires |t0| > 0 && Shaped(t0, |t0|, buckets) && Shaped(t, |t0|, buckets) && Shaped(t', |t0|, buckets) && b < buckets
    requires forall s :: s in servers ==> s in m && s in m'
    requires FirstPassed(t0, t, m, cap, servers, b, buckets) && MasterSettled(t, t', m, m', cap, servers, b, buckets)
    requires NowMasters(now, t[0], servers, b) && OneMore(now, now', t'[0][b])
    ensures FirstPassed(t0, t', m', cap, servers, b + 1, buckets) && NowMasters(now', t'[0], servers, b + 1)
  {
    FirstPassStep(t0, t, t', m, m', cap, servers, b, buckets);
    forall k | 0 <= k < b ensures t'[0][k] == t[0][k] { assert SameColumn(t, t', k); }
    NowMastersStep(now, now', t[0], t'[0], servers, b);
  }

  lemma NoPromotion(v: View, b: nat, chosen: nat)
    requires v.Slot(0, b) && chosen < v.copyCount
    requires chosen == 0 ==> forall l :: 1 <= l < v.copyCount ==> v.table[l][b] !in v.servers
    requires chosen != 0 ==> v.table[chosen][b] in v.servers
    requires chosen != 0 ==> Lookup(v.masters.count, v.table[chosen][b]) >= Lookup(v.masterCap, v.table[chosen][b])
    requires chosen != 0 ==> forall l :: 1 <= l < v.copyCount && v.table[l][b] in v.servers ==>
               Lookup(v.masters.count, v.table[chosen][b]) <= Lookup(v.masters.count, v.table[l][b])
    requires forall l :: 1 <= l < chosen && v.table[l][b] in v.servers ==>
               Lookup(v.masters.count, v.table[chosen][b]) < Lookup(v.masters.count, v.table[l][b])
    ensures forall l: nat :: !v.Promotable(b, l)
  {
  }

  lemma KeepingTreats(v: View, v': View, b: nat)
    requires Exact(v) && v.Slot(0, b) && v.Judge(v.table[0][b], 0, b, CONSIDER_BASE, true) == NodeOk
    requires v' == v.(now := v'.now, maxCountNow := v'.maxCountNow) && OneMore(v.now, v'.now, v.table[0][b])
    ensures MasterTreated(v, v', b)
  {
  }

  lemma PromotionTreats(v: View, v': View, b: nat, line: nat)
    requires Exact(v) && v.Slot(0, b) && v.Promotable(b, line) && v.Judge(v.table[0][b], 0, b, CONSIDER_BASE, true) != NodeOk
    requires Exact(v') && Like(v', v) && v'.table == SwapMaster(v.table, b, line, v.servers) && OneMore(v.now, v'.now, v.table[line][b])
    requires MasterSettled(v.table, v'.table, v.masters.count, v'.masters.count, v.masterCap, v.servers, b, v.bucketCount)
    ensures MasterTreated(v, v', b)
  {
    PromotionDecides(v, b, line);
  }

  lemma ReplacementPlaces(v: View, u: View, b: nat, x: Server, level: int)
    requires Exact(v) && v.Slot(0, b) && v.Judge(v.table[0][b], 0, b, CONSIDER_BASE, true) != NodeOk && forall l: nat :: !v.Promotable(b, l)
    requires v.Clear(0, b).FoundAt(0, b, v.table[0][b], x, level)
    requires Exact(u) && Like(u, v) && u.now == v.now && u.table == Put(v.table, 0, b, x)
    requires x in v.servers && u.masters == Bump(Drop(v.masters, v.table[0][b], v.masterCap, v.servers), x, v.masterCap, false)
    requires Lookup(Drop(v.masters, v.table[0][b], v.masterCap, v.servers).count, x) < Lookup(v.masterCap, x)
    requires v.table[0][b] in v.servers ==> v.masters.count[v.table[0][b]] > Lookup(v.masterCap, v.table[0][b])
    ensures MasterPlaced(v, u, b)
  {
    ReplaceSettles(v.table, v.masters, v.masterCap, v.servers, b, x, v.bucketCount);
    ReplacementDecides(v, b, x, level);
  }

  lemma PromotionDecides(v: View, b: nat, line: nat)
    requires v.Slot(0, b) && v.Promotable(b, line) && v.Judge(v.table[0][b], 0, b, CONSIDER_BASE, true) != NodeOk
    ensures v.MasterDecided(b, SwapMaster(v.table, b, line, v.servers)) && SwapMaster(v.table, b, line, v.servers)[0][b] == v.table[line][b]
  {
  }

  lemma ReplacementDecides(v: View, b: nat, x: Server, level: int)
    requires v.Slot(0, b) && v.Judge(v.table[0][b], 0, b, CONSIDER_BASE, true) != NodeOk && forall l: nat :: !v.Promotable(b, l)
    requires v.Clear(0, b).FoundAt(0, b, v.table[0][b], x, level)
    ensures v.MasterDecided(b, Put(v.table, 0, b, x))
  {
  }

  // ----- masters that may stay

  /** All masters are available, and no server masters more buckets than it may. */
  ghost predicate MastersFit(t: Table, cap: map<Server, int>, servers: seq<Server>) {
    |t| > 0 && (forall c :: 0 <= c < |t[0]| ==> t[0][c] in servers) && forall s :: s in servers ==> multiset(t[0])[s] <= Lookup(cap, s)
  }

  lemma FitMasterStays(v: View, t0: Table, t: Table, b: nat)
    requires Shaped(t0, v.copyCount, v.bucketCount) && Shaped(t, v.copyCount, v.bucketCount) && b < v.bucketCount && v.copyCount > 0
    requires AtBucket(v, t0, t, b) && MastersFit(t0, v.masterCap, v.servers) && forall c: nat :: c < b ==> SameColumn(t0, t, c)
    ensures v.table == t0 && v.Judge(v.table[0][b], 0, b, CONSIDER_BASE, true) == NodeOk
  {
    forall l: nat, c: nat | l < v.copyCount && c < v.bucketCount ensures v.table[l][c] == t0[l][c] {
      if c < b { assert SameColumn(t0, t, c); }
    }
    forall l | 0 <= l < v.copyCount ensures v.table[l] == t0[l] {}
    assert v.table == t0;
    assert t0[0][b] in v.servers;
  }

  lemma FitDecision(v: View, t0: Table, b: nat, u: Table)
    requires v.Slot(0, b) && v.table == t0 && v.Judge(v.table[0][b], 0, b, CONSIDER_BASE, true) == NodeOk && v.MasterDecided(b, u)
    ensures u == t0
  {
  }

  ghost predicate SameUpTo(t: Table, t': Table, b: nat) { forall c: nat :: c < b ==> SameColumn(t, t', c) }

  lemma SameUpToStep(t: Table, t': Table, b: nat)
    requires SameUpTo(t, t', b) && SameColumn(t, t', b)
    ensures SameUpTo(t, t', b + 1)
  {
  }

  /** If all masters fit, the first pass leaves the table alone. */
  lemma {:induction false} FitMastersStay(f: View, t0: Table, t: Table, b: nat)
    requires Shaped(t0, f.copyCount, f.bucketCount) && Shaped(t, f.copyCount, f.bucketCount) && b <= f.bucketCount && f.copyCount > 0
    requires MastersExplained(f, t0, t, f.bucketCount) && MastersFit(t0, f.masterCap, f.servers)
    ensures SameUpTo(t0, t, b)
  {
    if b > 0 {
      FitMastersStay(f, t0, t, b - 1);
      FitNext(f, t0, t, b - 1);
      SameUpToStep(t0, t, b - 1);
    }
  }

  lemma FitNext(f: View, t0: Table, t: Table, b: nat)
    requires Shaped(t0, f.copyCount, f.bucketCount) && Shaped(t, f.copyCount, f.bucketCount) && b < f.bucketCount && f.copyCount > 0
    requires MastersExplained(f, t0, t, f.bucketCount) && MastersFit(t0, f.masterCap, f.servers) && SameUpTo(t0, t, b)
    ensures SameColumn(t0, t, b)
  {
    ExplainedAt(f, t0, t, b);
    FitColumnStays(f, t0, t, b);
  }

  lemma ExplainedAt(f: View, t0: Table, t: Table, b: nat)
    requires Shaped(t0, f.copyCount, f.bucketCount) && Shaped(t, f.copyCount, f.bucketCount) && b < f.bucketCount && f.copyCount > 0
    requires MastersExplained(f, t0, t, f.bucketCount)
    ensures MasterExplained(f, t0, t, b)
  {
  }

  lemma FitColumnStays(f: View, t0: Table, t: Table, b: nat)
    requires Shaped(t0, f.copyCount, f.bucketCount) && Shaped(t, f.copyCount, f.bucketCount) && b < f.bucketCount && f.copyCount > 0
    requires MasterExplained(f, t0, t, b) && MastersFit(t0, f.masterCap, f.servers) && forall c: nat :: c < b ==> SameColumn(t0, t, c)
    ensures SameColumn(t0, t, b)
  {
    var v, u :| Like(v, f) && AtBucket(v, t0, t, b) && v.MasterDecided(b, u) && SameColumn(u, t, b);
    FitMasterStays(v, t0, t, b);
    FitDecision(v, t0, b, u);
  }

  /** Strategy 1 keeps the line of masters exactly if all of them are available and every server masters just its share. */
  lemma MastersKeptIff(v: View, t0: Table)
    requires Decided(v, t0) && v.copyCount > 0 && Shaped(t0, v.copyCount, v.bucketCount) && Shaped(v.table, v.copyCount, v.bucketCount)
    requires forall c :: 0 <= c < v.bucketCount ==> v.table[0][c] in v.servers
    requires forall s :: s in v.servers ==> multiset(v.table[0])[s] == Lookup(v.masterCap, s)
    ensures v.table[0] == t0[0] <==>
      (forall c :: 0 <= c < v.bucketCount ==> t0[0][c] in v.servers) && forall s :: s in v.servers ==> multiset(t0[0])[s] == Lookup(v.masterCap, s)
  {
    if (forall c :: 0 <= c < v.bucketCount ==> t0[0][c] in v.servers) && forall s :: s in v.servers ==> multiset(t0[0])[s] == Lookup(v.masterCap, s) {
      var f, first :| Like(v, f) && Rebuilding(f, t0, first, v.table);
      KeptLine(f, t0, first, v.table);
    }
  }

  lemma KeptLine(f: View, t0: Table, first: Table, t: Table)
    requires Rebuilding(f, t0, first, t) && MastersFit(t0, f.masterCap, f.servers)
    ensures t[0] == t0[0]
  {
    FitMastersStay(f, t0, first, f.bucketCount);
    forall c: nat | c < f.bucketCount ensures first[0][c] == t0[0][c] { assert SameColumn(t0, first, c); }
  }

  // ----- the whole rebuild

  /** A slave shares a position with an earlier copy only if it was forced to. */
  ghost predicate PositionsForced(f: View, t1: Table, t: Table)
    requires Shaped(t1, f.copyCount, f.bucketCount) && Shaped(t, f.copyCount, f.bucketCount)
  {
    forall b: nat, k: nat, l: nat {:trigger t[k][b], Forced(f, t1, t, b, l)} {:trigger t[k][b], t[l][b]} ::
      b < f.bucketCount && k < l < f.copyCount && t[k][b].pos == t[l][b].pos ==> Forced(f, t1, t, b, l)
  }

  /** From t0 by way of `first`, the table after the first pass, to t: every master and every slave as decided in its turn. */
  ghost predicate Rebuilding(f: View, t0: Table, first: Table, t: Table) {
    && f.copyCount > 0 && Shaped(t0, f.copyCount, f.bucketCount) && Shaped(first, f.copyCount, f.bucketCount) && Shaped(t, f.copyCount, f.bucketCount)
    && MastersExplained(f, t0, first, f.bucketCount) && SlavesExplained(f, first, t, f.bucketCount, 1) && t[0] == first[0]
    && (f.strategy.LoadBalance? ==> PositionsForced(f, first, t))
  }

  /** The table of v came about from t0 in that way. */
  ghost predicate Decided(v: View, t0: Table) {
    exists f, first :: Like(v, f) && Rebuilding(f, t0, first, v.table)
  }

  lemma IsDecided(v: View, f: View, t0: Table, first: Table)
    requires Like(v, f) && Rebuilding(f, t0, first, v.table)
    ensures Decided(v, t0)
  {
  }

  lemma AllForced(f: View, t1: Table, t: Table)
    requires Shaped(t1, f.copyCount, f.bucketCount) && Shaped(t, f.copyCount, f.bucketCount) && f.strategy.LoadBalance?
    requires SlavesExplained(f, t1, t, f.bucketCount, 1)
    ensures PositionsForced(f, t1, t)
  {
    forall b: nat, k: nat, l: nat | b < f.bucketCount && k < l < f.copyCount && t[k][b].pos == t[l][b].pos
      ensures Forced(f, t1, t, b, l)
    {
      assert SlaveExplained(f, t1, t, b, l);
      SharedIsForced(f, t1, t, b, k, l);
    }
  }

  lemma IsRebuilding(f: View, t0: Table, first: Table, t: Table)
    requires f.copyCount > 0 && Shaped(t0, f.copyCount, f.bucketCount)
    requires Shaped(first, f.copyCount, f.bucketCount) && Shaped(t, f.copyCount, f.bucketCount)
    requires MastersExplained(f, t0, first, f.bucketCount) && SlavesExplained(f, first, t, f.bucketCount, 1)
    requires forall b: nat :: b < f.bucketCount ==> Column(t, b)[0] == Column(first, b)[0]
    ensures Rebuilding(f, t0, first, t)
  {
    assert forall b: nat :: b < f.bucketCount ==> t[0][b] == Column(t, b)[0] && first[0][b] == Column(first, b)[0];
    if f.strategy.LoadBalance? { AllForced(f, first, t); }
  }
}
