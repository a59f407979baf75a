/** The state of a running migration: table m on its way to table d, both stored flat, one line after the
    other, with the bookkeeping of buckets still to move (tair/group_info.cpp:73-120, 940-1017, 1113-1151). */
module Migrations {
  import opened Counting
  import opened Shortcut

  // ----- flat tables

  function Cell(line: nat, bucket: nat, buckets: nat): nat { line * buckets + bucket }

  lemma CellBound(line: nat, bucket: nat, copies: nat, buckets: nat)
    requires line < copies && bucket < buckets
    ensures Cell(line, bucket, buckets) < copies * buckets
  {
    assert line * buckets + buckets == (line + 1) * buckets <= copies * buckets;
  }

  lemma Gap(l: nat, l': nat, n: nat)
    ensures l < l' ==> l * n + n <= l' * n
    ensures l' < l ==> l' * n + n <= l * n
  {
    if l < l' {
      assert l * n + n == (l + 1) * n <= l' * n;
    } else if l' < l {
      assert l' * n + n == (l' + 1) * n <= l * n;
    }
  }

  lemma CellInjective(l: nat, b: nat, l': nat, b': nat, buckets: nat)
    requires b < buckets && b' < buckets && Cell(l, b, buckets) == Cell(l', b', buckets)
    ensures l == l' && b == b'
  {
    Gap(l, l', buckets);
  }

  lemma CellOf(i: nat, copies: nat, buckets: nat) returns (line: nat, bucket: nat)
    requires i < copies * buckets
    ensures line < copies && bucket < buckets && i == Cell(line, bucket, buckets)
  {
    line, bucket := i / buckets, i % buckets;
    Gap(copies, line, buckets);
  }

  lemma CellMod(l: nat, b: nat, buckets: nat)
    requires b < buckets
    ensures Cell(l, b, buckets) % buckets == b
  {
    var i := Cell(l, b, buckets);
    var l', b' := i / buckets, i % buckets;
    CellInjective(l, b, l', b', buckets);
  }

  /** A bucket number has all its cells inside the table exactly if it is below the bucket count; the guard
      of set_migrating_hashtable admits one number more. */
  lemma CellsInRange(b: nat, copies: nat, buckets: nat)
    requires copies > 0
    ensures b < buckets <==> forall l: nat :: l < copies ==> Cell(l, b, buckets) < copies * buckets
  {
    if b < buckets {
      forall l: nat | l < copies ensures Cell(l, b, buckets) < copies * buckets { CellBound(l, b, copies, buckets); }
    } else {
      assert (copies - 1) * buckets + buckets == copies * buckets;
      assert Cell(copies - 1, b, buckets) >= copies * buckets;
    }
  }

  function Col(t: seq<nat>, copies: nat, buckets: nat, b: nat): (c: seq<nat>)
    requires |t| == copies * buckets && b < buckets
    ensures |c| == copies
  {
    seq(copies, l requires 0 <= l < copies => CellBound(l, b, copies, buckets); t[Cell(l, b, buckets)])
  }

  lemma EqualColumns(s: seq<nat>, t: seq<nat>, copies: nat, buckets: nat)
    requires |s| == |t| == copies * buckets
    requires forall b: nat :: b < buckets ==> Col(s, copies, buckets, b) == Col(t, copies, buckets, b)
    ensures s == t
  {
    forall i: nat | i < |s| ensures s[i] == t[i] {
      var l, b := CellOf(i, copies, buckets);
      assert Col(s, copies, buckets, b)[l] == Col(t, copies, buckets, b)[l];
    }
  }

  /** s with the column of one bucket taken from t. */
  function TakeColumn(s: seq<nat>, t: seq<nat>, buckets: nat, bucket: nat): (s': seq<nat>)
    requires |s| == |t| && bucket < buckets
    ensures |s'| == |s|
  {
    seq(|s|, i requires 0 <= i < |s| => if i % buckets == bucket then t[i] else s[i])
  }

  // ----- the migration state

  function Count(m: map<nat, int>, id: nat): int { if id in m then m[id] else 0 }

  /** `left` is migrate_block_count (-1 when no migration runs), `machine` is migrate_machine. */
  datatype Migration = Migration(copies: nat, buckets: nat, m: seq<nat>, d: seq<nat>, machine: map<nat, int>, left: int)
  {
    predicate Shaped() { copies > 0 && |m| == |d| == copies * buckets }

    function MCol(b: nat): seq<nat>
      requires Shaped() && b < buckets
    {
      Col(m, copies, buckets, b)
    }

    function DCol(b: nat): seq<nat>
      requires Shaped() && b < buckets
    {
      Col(d, copies, buckets, b)
    }

    predicate Differs(b: nat)
      requires Shaped() && b < buckets
    {
      MCol(b) != DCol(b)
    }

    /** Buckets below n that still differ, and those of them mastered by one server. */
    ghost function Differing(n: nat): nat
      requires Shaped() && n <= buckets
    {
      if n == 0 then 0 else Differing(n - 1) + if Differs(n - 1) then 1 else 0
    }

    ghost function Pending(id: nat, n: nat): nat
      requires Shaped() && n <= buckets
    {
      if n == 0 then 0 else Pending(id, n - 1) + if Differs(n - 1) && MCol(n - 1)[0] == id then 1 else 0
    }

    predicate Flags(b: nat)
      requires Shaped() && b < buckets
    {
      Flagged(MCol(b), DCol(b))
    }

    /** The same counts by the shortcut test instead of the comparison of columns. */
    ghost function FlaggedCount(n: nat): nat
      requires Shaped() && n <= buckets
    {
      if n == 0 then 0 else FlaggedCount(n - 1) + if Flags(n - 1) then 1 else 0
    }

    ghost function FlaggedOf(id: nat, n: nat): nat
      requires Shaped() && n <= buckets
    {
      if n == 0 then 0 else FlaggedOf(id, n - 1) + if Flags(n - 1) && MCol(n - 1)[0] == id then 1 else 0
    }

    /** What fill_migrate_machine computes for the buckets below n. */
    ghost predicate FilledUpTo(machine: map<nat, int>, count: int, n: nat)
      requires Shaped() && n <= buckets
    {
      && count == FlaggedCount(n)
      && forall id :: (id in machine <==> FlaggedOf(id, n) > 0) && Count(machine, id) == FlaggedOf(id, n)
    }

    /** The shortcut test is right about every bucket, and every bucket has a master. */
    ghost predicate ShortcutRight()
      requires Shaped()
    {
      forall b: nat :: b < buckets ==> (Flags(b) <==> Differs(b)) && (Differs(b) ==> MCol(b)[0] != 0)
    }

    ghost predicate Owes(id: nat)
      requires Shaped()
    {
      && (id in machine <==> Pending(id, buckets) > 0)
      && Count(machine, id) == Pending(id, buckets)
    }

    /** The bookkeeping is exact. */
    ghost predicate Inv() {
      && Shaped()
      && (forall id :: Owes(id))
      && (left == -1 ==> Differing(buckets) == 0)
      && (left != -1 ==> left == Differing(buckets))
      && (forall b: nat :: b < buckets && Differs(b) ==> MCol(b)[0] != 0)
    }

    function Advance(bucket: nat): (m': seq<nat>)
      requires Shaped() && bucket < buckets
      ensures |m'| == |m|
    {
      TakeColumn(m, d, buckets, bucket)
    }

    /** The cells of m and d that set_migrating_hashtable reads for a report (bucket, server). */
    ghost function Touched(bucket: nat, server: nat): iset<nat> {
      if bucket > buckets || left == -1 then iset{}
      else if bucket >= |m| || m[bucket] != server then iset{bucket}
      else iset l: nat | l < copies :: Cell(l, bucket, buckets)
    }

    /** Its guard admits bucket == buckets, which has no column: the report must then be stopped by the next test, which
        reads the first cell of the second line. */
    predicate Safe(bucket: nat, server: nat) {
      bucket == buckets ==> left == -1 || (buckets < |m| && m[buckets] != server)
    }

    /** set_migrating_hashtable. */
    function Finish(bucket: nat, server: nat): Migration
      requires Shaped() && Safe(bucket, server)
    {
      if bucket >= buckets || left == -1 || MCol(bucket)[0] != server || !Differs(bucket) then this
      else
        var n := Count(machine, server) - 1;
        this.(m := Advance(bucket), left := left - 1,
              machine := if n == 0 then machine - {server} else machine[server := n])
    }
  }

  /** A report stays inside the tables exactly if it is safe. */
  lemma SafeIsInBounds(g: Migration, bucket: nat, server: nat)
    requires g.Shaped()
    ensures g.Safe(bucket, server) <==> forall i: nat :: i in g.Touched(bucket, server) ==> i < |g.m|
  {
    CellsInRange(bucket, g.copies, g.buckets);
    if bucket < g.buckets { CellBound(0, bucket, g.copies, g.buckets); }
    if bucket == g.buckets && g.left != -1 {
      if g.buckets < |g.m| && g.m[g.buckets] == server {
        var i := Cell(g.copies - 1, bucket, g.buckets);
        assert i == g.copies * g.buckets;
        assert i in g.Touched(bucket, server);
      } else {
        assert g.Touched(bucket, server) == iset{bucket};
      }
    }
  }

  lemma TakeColumnColumns(s: seq<nat>, t: seq<nat>, copies: nat, buckets: nat, bucket: nat)
    requires |s| == |t| == copies * buckets && bucket < buckets
    ensures forall b: nat :: b < buckets ==>
      Col(TakeColumn(s, t, buckets, bucket), copies, buckets, b) == Col(if b == bucket then t else s, copies, buckets, b)
  {
    var s' := TakeColumn(s, t, buckets, bucket);
    forall b: nat, l: nat | b < buckets && l < copies
      ensures Col(s', copies, buckets, b)[l] == Col(if b == bucket then t else s, copies, buckets, b)[l]
    {
      CellBound(l, b, copies, buckets);
      CellMod(l, b, buckets);
    }
  }

  /** Advancing a bucket replaces its column by that of d and leaves every other column alone. */
  lemma AdvanceMoves(g: Migration, bucket: nat)
    requires g.Shaped() && bucket < g.buckets
    ensures forall b: nat :: b < g.buckets && b != bucket ==> Col(g.Advance(bucket), g.copies, g.buckets, b) == g.MCol(b)
    ensures Col(g.Advance(bucket), g.copies, g.buckets, bucket) == g.DCol(bucket)
  {
    TakeColumnColumns(g.m, g.d, g.copies, g.buckets, bucket);
  }

  lemma {:induction false} FewerPending(g: Migration, bucket: nat, g': Migration, id: nat, n: nat)
    requires g.Shaped() && bucket < g.buckets && n <= g.buckets && g.Differs(bucket)
    requires g'.Shaped() && g' == g.(m := g.Advance(bucket), machine := g'.machine, left := g'.left)
    ensures g'.Pending(id, n) == g.Pending(id, n) - if bucket < n && g.MCol(bucket)[0] == id then 1 else 0
    ensures g'.Differing(n) == g.Differing(n) - if bucket < n then 1 else 0
  {
    if n > 0 {
      FewerPending(g, bucket, g', id, n - 1);
      AdvanceMoves(g, bucket);
      assert n - 1 != bucket ==> g'.MCol(n - 1) == g.MCol(n - 1);
    }
  }

  lemma {:induction false} PendingWitness(g: Migration, bucket: nat, n: nat)
    requires g.Shaped() && bucket < n <= g.buckets && g.Differs(bucket)
    ensures g.Pending(g.MCol(bucket)[0], n) > 0 && g.Differing(n) > 0
  {
    if bucket < n - 1 { PendingWitness(g, bucket, n - 1); }
  }

  /** One report keeps the bookkeeping exact, and the server that moved a bucket was listed as owing one. */
  lemma FinishKeepsInv(g: Migration, bucket: nat, server: nat)
    requires g.Inv() && g.Safe(bucket, server)
    ensures g.Finish(bucket, server).Inv()
    ensures bucket < g.buckets && g.left != -1 && g.Differs(bucket) && g.MCol(bucket)[0] == server ==> server in g.machine
  {
    if bucket < g.buckets && g.left != -1 && g.Differs(bucket) && g.MCol(bucket)[0] == server {
      var g' := g.Finish(bucket, server);
      PendingWitness(g, bucket, g.buckets);
      assert g.Owes(server);
      forall id ensures g'.Owes(id) {
        assert g.Owes(id);
        FewerPending(g, bucket, g', id, g.buckets);
      }
      FewerPending(g, bucket, g', server, g.buckets);
      AdvanceMoves(g, bucket);
      forall b: nat | b < g.buckets && g'.Differs(b) ensures g'.MCol(b)[0] != 0 {
        assert b != bucket;
      }
    }
  }

  /** A report of a bucket that has moved, by its master. */
  ghost predicate Counts(g: Migration, bucket: nat, server: nat)
    requires g.Shaped()
  {
    bucket < g.buckets && g.left != -1 && g.MCol(bucket)[0] == server && g.Differs(bucket)
  }

  /** What a report does: such a one brings its column to d, every other column stays, and the count and the server's debt
      fall by one; any other report changes nothing. */
  lemma FinishMoves(g: Migration, bucket: nat, server: nat)
    requires g.Inv() && g.Safe(bucket, server)
    ensures var g' := g.Finish(bucket, server);
      && g'.Shaped() && g'.copies == g.copies && g'.buckets == g.buckets && g'.d == g.d
      && (!Counts(g, bucket, server) ==> g' == g)
      && (Counts(g, bucket, server) ==>
            && g'.MCol(bucket) == g.DCol(bucket) && (forall b: nat :: b < g.buckets && b != bucket ==> g'.MCol(b) == g.MCol(b))
            && g'.left == g.left - 1 && forall id :: Count(g'.machine, id) == Count(g.machine, id) - if id == server then 1 else 0)
  {
    if Counts(g, bucket, server) {
      AdvanceMoves(g, bucket);
      PendingWitness(g, bucket, g.buckets);
      assert g.Owes(server);
    }
  }

  /** No server left owing a bucket means that the migration has arrived. */
  lemma EmptyMachineMeansDone(g: Migration)
    requires g.Inv() && g.machine == map[]
    ensures g.m == g.d
  {
    forall b: nat | b < g.buckets ensures Col(g.m, g.copies, g.buckets, b) == Col(g.d, g.copies, g.buckets, b) {
      assert g.Owes(g.MCol(b)[0]);
      if g.Differs(b) { PendingWitness(g, b, g.buckets); }
    }
    EqualColumns(g.m, g.d, g.copies, g.buckets);
  }

  // ----- totals

  ghost function PendingMap(g: Migration, q: seq<nat>, n: nat): map<nat, int>
    requires g.Shaped() && n <= g.buckets
  {
    map id | id in q :: g.Pending(id, n)
  }

  lemma {:induction false} PendingTotal(g: Migration, q: seq<nat>, n: nat)
    requires g.Shaped() && n <= g.buckets && Distinct(q)
    requires forall b: nat :: b < n && g.Differs(b) ==> g.MCol(b)[0] in q
    ensures SumOver(q, PendingMap(g, q, n)) == g.Differing(n)
  {
    var f' := PendingMap(g, q, n);
    if n == 0 {
      SumOfZeros(q, f');
    } else {
      PendingTotal(g, q, n - 1);
      var f := PendingMap(g, q, n - 1);
      if g.Differs(n - 1) {
        var id := g.MCol(n - 1)[0];
        SumBump(q, f, id, 1);
        SumOfSame(q, f[id := f[id] + 1], f');
      } else {
        SumOfSame(q, f, f');
      }
    }
  }

  /** The servers' debts sum up to the number of buckets that still differ, and so to migrate_block_count. */
  lemma DebtsSumUp(g: Migration, q: seq<nat>)
    requires g.Inv() && Distinct(q) && forall id :: id in q <==> id in g.machine
    ensures SumOver(q, g.machine) == g.Differing(g.buckets)
    ensures g.left != -1 ==> SumOver(q, g.machine) == g.left
  {
    forall b: nat | b < g.buckets && g.Differs(b) ensures g.MCol(b)[0] in q {
      PendingWitness(g, b, g.buckets);
      assert g.Owes(g.MCol(b)[0]);
    }
    PendingTotal(g, q, g.buckets);
    forall id | id in q ensures g.machine[id] == PendingMap(g, q, g.buckets)[id] { assert g.Owes(id); }
    SumOfSame(q, g.machine, PendingMap(g, q, g.buckets));
  }

  // ----- whole runs

  datatype Report = Report(bucket: nat, server: nat)

  /** Every report is safe when it comes. */
  predicate SafeRun(g: Migration, reports: seq<Report>)
    requires g.Shaped()
    decreases |reports|
  {
    reports != [] ==>
      && g.Safe(reports[0].bucket, reports[0].server)
      && SafeRun(g.Finish(reports[0].bucket, reports[0].server), reports[1..])
  }

  /** The state after a sequence of accepted finish reports. */
  function Play(g: Migration, reports: seq<Report>): Migration
    requires g.Shaped() && SafeRun(g, reports)
    decreases |reports|
  {
    if reports == [] then g else Play(g.Finish(reports[0].bucket, reports[0].server), reports[1..])
  }

  /** Every column is wholly as at the start or wholly that of d. */
  ghost predicate Between(g0: Migration, g: Migration)
    requires g0.Shaped()
  {
    && g.Shaped() && g.copies == g0.copies && g.buckets == g0.buckets && g.d == g0.d
    && forall b: nat :: b < g.buckets ==> g.MCol(b) == g0.MCol(b) || g.MCol(b) == g0.DCol(b)
  }

  lemma FinishBetween(g: Migration, bucket: nat, server: nat)
    requires g.Shaped() && g.Safe(bucket, server)
    ensures Between(g, g.Finish(bucket, server))
  {
    if bucket < g.buckets { AdvanceMoves(g, bucket); }
  }

  /** After any sequence of finish reports the bookkeeping is exact, no column is torn, and once no server
      owes a bucket the table is d. */
  lemma {:induction false} PlayKeepsInv(g: Migration, reports: seq<Report>)
    requires g.Inv() && SafeRun(g, reports)
    ensures Play(g, reports).Inv() && Between(g, Play(g, reports))
    ensures Play(g, reports).machine == map[] ==> Play(g, reports).m == g.d
    decreases |reports|
  {
    if reports == [] {
      if g.machine == map[] { EmptyMachineMeansDone(g); }
    } else {
      var r := reports[0];
      var g' := g.Finish(r.bucket, r.server);
      FinishKeepsInv(g, r.bucket, r.server);
      FinishBetween(g, r.bucket, r.server);
      PlayKeepsInv(g', reports[1..]);
      assert forall b: nat :: b < g.buckets ==> g'.DCol(b) == g.DCol(b);
    }
  }

  // ----- progress

  /** Every differing bucket has its report, by its master, among these. */
  ghost predicate Covered(g: Migration, reports: seq<Report>)
    requires g.Shaped()
  {
    forall b: nat :: b < g.buckets && g.Differs(b) ==> Report(b, g.MCol(b)[0]) in reports
  }

  /** After a report the rest still covers what is left to do. */
  lemma CoveredRest(g: Migration, reports: seq<Report>)
    requires g.Inv() && g.left != -1 && reports != [] && Covered(g, reports) && g.Safe(reports[0].bucket, reports[0].server)
    ensures var g' := g.Finish(reports[0].bucket, reports[0].server); g'.Inv() && g'.left != -1 && Covered(g', reports[1..])
  {
    var r := reports[0];
    var g' := g.Finish(r.bucket, r.server);
    FinishKeepsInv(g, r.bucket, r.server);
    FinishMoves(g, r.bucket, r.server);
    if Counts(g, r.bucket, r.server) { PendingWitness(g, r.bucket, g.buckets); }
    forall b: nat | b < g.buckets && g'.Differs(b) ensures Report(b, g'.MCol(b)[0]) in reports[1..] {
      assert g'.DCol(b) == g.DCol(b);
      assert g'.MCol(b) == g.MCol(b) && g.Differs(b);
      assert r != Report(b, g.MCol(b)[0]);
    }
  }

  /** Progress: once every differing bucket has been reported by its master, in any order and among any other reports, no
      server owes anything, the count is zero and the table is d. */
  lemma {:induction false} ReportsComplete(g: Migration, reports: seq<Report>)
    requires g.Inv() && g.left != -1 && SafeRun(g, reports) && Covered(g, reports)
    ensures var g' := Play(g, reports); g'.machine == map[] && g'.left == 0 && g'.m == g.d
    decreases |reports|
  {
    if reports == [] {
      NothingOwed(g);
      EmptyMachineMeansDone(g);
    } else {
      CoveredRest(g, reports);
      ReportsComplete(g.Finish(reports[0].bucket, reports[0].server), reports[1..]);
    }
  }

  lemma NothingOwed(g: Migration)
    requires g.Inv() && g.left != -1 && forall b: nat :: b < g.buckets ==> !g.Differs(b)
    ensures g.machine == map[] && g.left == 0
  {
    forall id ensures id !in g.machine {
      NothingDiffers(g, id, g.buckets);
      assert g.Owes(id);
    }
    NothingDiffers(g, 0, g.buckets);
  }

  lemma {:induction false} NothingDiffers(g: Migration, id: nat, n: nat)
    requires g.Shaped() && n <= g.buckets && forall b: nat :: b < g.buckets ==> !g.Differs(b)
    ensures g.Pending(id, n) == 0 && g.Differing(n) == 0
  {
    if n > 0 { NothingDiffers(g, id, n - 1); }
  }

  /** Conversely nothing moves by itself: a bucket that has arrived was reported by its master. */
  lemma {:induction false} ArrivedWasReported(g: Migration, reports: seq<Report>, b: nat)
    requires g.Inv() && SafeRun(g, reports) && b < g.buckets && g.Differs(b)
    ensures var g' := Play(g, reports); g'.Shaped() && g'.buckets == g.buckets && (!g'.Differs(b) ==> Report(b, g.MCol(b)[0]) in reports)
    decreases |reports|
  {
    if reports != [] {
      var r := reports[0];
      var g' := g.Finish(r.bucket, r.server);
      FinishKeepsInv(g, r.bucket, r.server);
      FinishMoves(g, r.bucket, r.server);
      PlayKeepsInv(g', reports[1..]);
      assert g'.DCol(b) == g.DCol(b);
      if r != Report(b, g.MCol(b)[0]) {
        assert g'.MCol(b) == g.MCol(b);
        ArrivedWasReported(g', reports[1..], b);
      }
    }
  }

  /** So the tables meet exactly when every bucket that had to move has been reported. */
  lemma CompleteIff(g: Migration, reports: seq<Report>)
    requires g.Inv() && g.left != -1 && SafeRun(g, reports)
    ensures Play(g, reports).m == g.d <==> Covered(g, reports)
  {
    if Covered(g, reports) { ReportsComplete(g, reports); }
    PlayKeepsInv(g, reports);
    if Play(g, reports).m == g.d {
      forall b: nat | b < g.buckets && g.Differs(b) ensures Report(b, g.MCol(b)[0]) in reports { ArrivedWasReported(g, reports, b); }
    }
  }

  // ----- starting a migration

  lemma {:induction false} FlagsCountDifferences(g: Migration, id: nat, n: nat)
    requires g.Shaped() && g.ShortcutRight() && n <= g.buckets
    ensures g.FlaggedOf(id, n) == g.Pending(id, n) && g.FlaggedCount(n) == g.Differing(n)
  {
    if n > 0 { FlagsCountDifferences(g, id, n - 1); }
  }

  lemma {:induction false} CountsOfTables(g: Migration, g': Migration, id: nat, n: nat)
    requires g.Shaped() && n <= g.buckets && g' == g.(machine := g'.machine, left := g'.left)
    ensures g'.Pending(id, n) == g.Pending(id, n) && g'.Differing(n) == g.Differing(n)
  {
    if n > 0 { CountsOfTables(g, g', id, n - 1); }
  }

  /** If the shortcut test is right about every bucket, filling by it makes the bookkeeping exact. */
  lemma FilledIsExact(g: Migration, machine: map<nat, int>, count: int)
    requires g.Shaped() && g.ShortcutRight() && g.FilledUpTo(machine, count, g.buckets)
    ensures g.(machine := machine, left := if count > 0 then count else -1).Inv()
  {
    var g' := g.(machine := machine, left := if count > 0 then count else -1);
    forall id ensures g'.Owes(id) {
      FlagsCountDifferences(g, id, g.buckets);
      CountsOfTables(g, g', id, g.buckets);
    }
    FlagsCountDifferences(g, 0, g.buckets);
    CountsOfTables(g, g', 0, g.buckets);
    forall b: nat | b < g'.buckets && g'.Differs(b) ensures g'.MCol(b)[0] != 0 { assert g.Differs(b); }
  }

  // ----- restarting in the middle of a migration

  /** A bucket that has arrived is not flagged, the others are as before. */
  lemma FinishKeepsShortcut(g: Migration, bucket: nat, server: nat)
    requires g.Shaped() && g.ShortcutRight() && g.Safe(bucket, server)
    ensures g.Finish(bucket, server).ShortcutRight()
  {
    var g' := g.Finish(bucket, server);
    if bucket < g.buckets && g' != g {
      AdvanceMoves(g, bucket);
      SameIsNotFlagged(g.DCol(bucket));
      forall b: nat | b < g.buckets ensures (g'.Flags(b) <==> g'.Differs(b)) && (g'.Differs(b) ==> g'.MCol(b)[0] != 0) {
        assert g'.DCol(b) == g.DCol(b) && g'.MCol(b) == if b == bucket then g.DCol(b) else g.MCol(b);
      }
    }
  }

  /** Filling again finds just what the bookkeeping says. */
  lemma RefillRestores(g: Migration, machine: map<nat, int>, count: int)
    requires g.Inv() && g.ShortcutRight() && g.FilledUpTo(machine, count, g.buckets)
    ensures machine == g.machine && (g.left != -1 ==> count == g.left)
  {
    forall id ensures id in machine <==> id in g.machine
      ensures id in machine ==> machine[id] == g.machine[id]
    {
      FlagsCountDifferences(g, id, g.buckets);
      assert g.Owes(id);
      assert Count(machine, id) == Count(g.machine, id);
    }
    FlagsCountDifferences(g, 0, g.buckets);
  }

  /** A restart after any sequence of reports, which fills anew from the half-migrated tables, comes back to exactly the
      debts and the count that were lost. */
  lemma {:induction false} RestartRestores(g: Migration, reports: seq<Report>, machine: map<nat, int>, count: int)
    requires g.Inv() && g.ShortcutRight() && SafeRun(g, reports)
    requires var g' := Play(g, reports); g'.Shaped() && g'.FilledUpTo(machine, count, g'.buckets)
    ensures machine == Play(g, reports).machine && (Play(g, reports).left != -1 ==> count == Play(g, reports).left)
    decreases |reports|
  {
    if reports == [] {
      RefillRestores(g, machine, count);
    } else {
      var r := reports[0];
      FinishKeepsInv(g, r.bucket, r.server);
      FinishKeepsShortcut(g, r.bucket, r.server);
      RestartRestores(g.Finish(r.bucket, r.server), reports[1..], machine, count);
    }
  }
}
