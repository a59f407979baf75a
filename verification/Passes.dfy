/** What the two passes of rebuild_table keep, column by column (tair/table_builder.cpp:436-507). */
module Passes {
  import opened Counting
  import opened Tables
  import opened Tallies
  import opened Books

  ghost predicate ClearOf(s: Server, col: seq<Server>, line: nat) {
    forall k :: 0 <= k < |col| && k != line ==> col[k].id != s.id
  }

  lemma ClearOfOthers(s: Server, col: seq<Server>, line: nat, e: Server)
    requires line < |col|
    ensures ClearOf(s, col[line := e], line) ==> ClearOf(s, col, line)
    ensures col[line := e][line := s] == col[line := s]
  {
    if ClearOf(s, col[line := e], line) {
      forall k | 0 <= k < |col| && k != line ensures col[k].id != s.id {
        assert col[line := e][k] == col[k];
      }
    }
  }

  ghost predicate TwoPositions(col: seq<Server>) {
    exists i, j :: 0 <= i < j < |col| && col[i].pos != col[j].pos
  }

  // ----- pass 1: masters

  ghost predicate SameColumn(t: Table, t': Table, b: nat) {
    |t| == |t'| && forall l :: 0 <= l < |t| ==> b < |t[l]| && b < |t'[l]| && t'[l][b] == t[l][b]
  }

  /** The master of bucket b is settled: it is available, no server was pushed over its capacity, an
      over-full server does not master b, and a kept master means an untouched table. */
  ghost predicate MasterSettled(t: Table, t': Table, m: map<Server, int>, m': map<Server, int>,
                                cap: map<Server, int>, servers: seq<Server>, b: nat, buckets: nat)
    requires |t| > 0 && |t'| > 0 && b < |t[0]| && b < |t'[0]|
    requires forall s :: s in servers ==> s in m && s in m'
  {
    && t'[0][b] in servers
    && (forall s :: s in servers ==> m'[s] <= m[s] || m'[s] <= Lookup(cap, s))
    && (forall s :: s in servers && m'[s] > Lookup(cap, s) ==> t'[0][b] != s)
    && (t'[0][b] == t[0][b] ==> t' == t)
    && (forall k: nat :: k < buckets && k != b ==> SameColumn(t, t', k))
  }

  lemma SwapSettles(t: Table, y: Tally, cap: map<Server, int>, servers: seq<Server>, b: nat, line: nat, buckets: nat)
    requires Shaped(t, |t|, buckets) && 0 < line < |t| && b < buckets && Indexed(y, cap, servers)
    requires t[line][b] in servers && y.count[t[line][b]] < Lookup(cap, t[line][b])
    requires t[0][b] in servers ==> y.count[t[0][b]] > Lookup(cap, t[0][b])
    ensures var t', y' := SwapMaster(t, b, line, servers), SwapTally(y, t[0][b], t[line][b], cap, servers);
            Indexed(y', cap, servers) && MasterSettled(t, t', y.count, y'.count, cap, servers, b, buckets)
  {
    SwapTallyCounts(y, t[0][b], t[line][b], cap, servers);
  }

  lemma ReplaceSettles(t: Table, y: Tally, cap: map<Server, int>, servers: seq<Server>, b: nat, s: Server, buckets: nat)
    requires |t| > 0 && Shaped(t, |t|, buckets) && b < buckets && Indexed(y, cap, servers) && s in servers
    requires Lookup(Drop(y, t[0][b], cap, servers).count, s) < Lookup(cap, s)
    requires t[0][b] in servers ==> y.count[t[0][b]] > Lookup(cap, t[0][b])
    ensures var t', y' := Put(t, 0, b, s), Bump(Drop(y, t[0][b], cap, servers), s, cap, false);
            Indexed(y', cap, servers) && MasterSettled(t, t', y.count, y'.count, cap, servers, b, buckets)
  {
    DropCounts(y, t[0][b], cap, servers);
    BumpCounts(Drop(y, t[0][b], cap, servers), s, cap, servers);
  }

  /** Pass 1 up to bucket b, from table t0. */
  ghost predicate FirstPassed(t0: Table, t: Table, m: map<Server, int>, cap: map<Server, int>,
                              servers: seq<Server>, b: nat, buckets: nat)
    requires |t0| > 0 && Shaped(t0, |t0|, buckets) && Shaped(t, |t0|, buckets) && b <= buckets
    requires forall s :: s in servers ==> s in m
  {
    && (forall k :: 0 <= k < b ==> t[0][k] in servers)
    && (forall s, k :: s in servers && 0 <= k < b && m[s] > Lookup(cap, s) ==> t[0][k] != s)
    && (forall k: nat :: k < b && t[0][k] == t0[0][k] ==> SameColumn(t0, t, k))
    && (forall k: nat :: b <= k < buckets ==> SameColumn(t0, t, k))
  }

  lemma FirstPassStep(t0: Table, t: Table, t': Table, m: map<Server, int>, m': map<Server, int>,
                      cap: map<Server, int>, servers: seq<Server>, b: nat, buckets: nat)
    requires |t0| > 0 && Shaped(t0, |t0|, buckets) && Shaped(t, |t0|, buckets) && Shaped(t', |t0|, buckets) && b < buckets
    requires forall s :: s in servers ==> s in m && s in m'
    requires FirstPassed(t0, t, m, cap, servers, b, buckets)
    requires MasterSettled(t, t', m, m', cap, servers, b, buckets)
    ensures FirstPassed(t0, t', m', cap, servers, b + 1, buckets)
  {
    assert SameColumn(t0, t, b);
    forall k: nat | k < buckets && k != b && SameColumn(t0, t, k) ensures SameColumn(t0, t', k) {
      assert SameColumn(t, t', k);
    }
    forall s, k | s in servers && 0 <= k < b + 1 && m'[s] > Lookup(cap, s) ensures t'[0][k] != s {
      if k != b { assert SameColumn(t, t', k); }
    }
    forall k | 0 <= k < b ensures t'[0][k] == t[0][k] { assert SameColumn(t, t', k); }
  }

  lemma BalanceFromCounts(line: seq<Server>, m: map<Server, int>, cap: map<Server, int>, servers: seq<Server>)
    requires Distinct(servers)
    requires forall s :: s in servers ==> s in m && s in cap && cap[s] >= 0 && m[s] == multiset(line)[s]
    requires forall k :: 0 <= k < |line| ==> line[k] in servers
    requires forall s, k :: s in servers && 0 <= k < |line| && m[s] > cap[s] ==> line[k] != s
    requires SumOver(servers, cap) == |line|
    ensures forall s :: s in servers ==> m[s] == cap[s]
  {
    forall s | s in servers ensures m[s] <= cap[s] {
      if s in line {
        var k :| 0 <= k < |line| && line[k] == s;
      } else {
        assert multiset(line)[s] == 0;
      }
    }
    SumOfOccurrences(servers, line);
    SumOfSame(servers, m, Occurrences(servers, line));
    SumTight(servers, m, cap);
  }

  /** After pass 1 every server masters exactly as many buckets as it may. */
  lemma ExactBalance(t: Table, y: Tally, cap: map<Server, int>, servers: seq<Server>, buckets: nat)
    requires |t| > 0 && |t[0]| == buckets && ProperServers(servers) && CountsMasters(y, cap, servers, t)
    requires forall k :: 0 <= k < buckets ==> t[0][k] in servers
    requires forall s, k :: s in servers && 0 <= k < buckets && y.count[s] > Lookup(cap, s) ==> t[0][k] != s
    requires forall s :: s in servers ==> s in cap && cap[s] >= 0
    requires SumOver(servers, cap) == buckets
    ensures forall s :: s in servers ==> multiset(t[0])[s] == cap[s]
  {
    BalanceFromCounts(t[0], y.count, cap, servers);
  }

  // ----- pass 2: slaves

  /** Column c while pass 2 has treated its lines below `line`, starting from column w. */
  ghost predicate SlavesPassed(w: seq<Server>, c: seq<Server>, servers: seq<Server>, racks: bool, line: nat)
    requires |w| == |c| && 1 <= line <= |c|
  {
    && c[0] == w[0]
    && (forall l :: 1 <= l < line ==> c[l] in servers)
    && (forall l: nat :: 1 <= l < line ==> ClearOf(c[l], c, l))
    && (forall k :: line <= k < |c| ==> c[k] == w[k])
    && (forall l: nat :: 1 <= l < line && c[1..l] == w[1..l] ==> c[l] == w[l] || ClearOf(c[l], w, l))
    && (racks && line > 1 ==> TwoPositions(c))
  }

  lemma SlaveStep(w: seq<Server>, c: seq<Server>, x: Server, servers: seq<Server>, racks: bool, line: nat)
    requires |w| == |c| && 1 <= line < |c|
    requires SlavesPassed(w, c, servers, racks, line)
    requires x in servers && ClearOf(x, c, line)
    requires racks ==> TwoPositions(c[line := x])
    ensures SlavesPassed(w, c[line := x], servers, racks, line + 1)
  {
    var c' := c[line := x];
    forall l: nat | 1 <= l < line + 1 ensures ClearOf(c'[l], c', l) {
      forall k | 0 <= k < |c'| && k != l ensures c'[k].id != c'[l].id {
        if l != line { assert ClearOf(c[l], c, l); }
      }
    }
    forall l: nat | 1 <= l < line + 1 && c'[1..l] == w[1..l]
      ensures c'[l] == w[l] || ClearOf(c'[l], w, l)
    {
      assert c'[1..l] == c[1..l];
      if l == line {
        forall k | 0 <= k < |w| && k != line ensures w[k] == c[k] {
          if 1 <= k < line { assert w[1..line][k - 1] == c[1..line][k - 1]; }
        }
      }
    }
  }

  /** Every column below b has been treated by pass 2, every other column is as pass 1 left it. */
  ghost predicate SecondPassed(t1: Table, t: Table, servers: seq<Server>, racks: bool, b: nat, buckets: nat)
    requires |t1| > 0 && Shaped(t1, |t1|, buckets) && Shaped(t, |t1|, buckets) && b <= buckets
  {
    && (forall k: nat :: k < b ==> SlavesPassed(Column(t1, k), Column(t, k), servers, racks, |t1|))
    && (forall k: nat :: b <= k < buckets ==> Column(t, k) == Column(t1, k))
  }

  /** The same in the middle of column b. */
  ghost predicate SecondPassing(t1: Table, t: Table, servers: seq<Server>, racks: bool, b: nat, line: nat, buckets: nat)
    requires Shaped(t1, |t1|, buckets) && Shaped(t, |t1|, buckets) && b < buckets && 1 <= line <= |t1|
  {
    && (forall k: nat :: k < b ==> SlavesPassed(Column(t1, k), Column(t, k), servers, racks, |t1|))
    && SlavesPassed(Column(t1, b), Column(t, b), servers, racks, line)
    && (forall k: nat :: b < k < buckets ==> Column(t, k) == Column(t1, k))
  }

  lemma SecondPassStep(t1: Table, t: Table, x: Server, servers: seq<Server>, racks: bool, b: nat, line: nat, buckets: nat)
    requires Shaped(t1, |t1|, buckets) && Shaped(t, |t1|, buckets) && b < buckets && 1 <= line < |t1|
    requires SecondPassing(t1, t, servers, racks, b, line, buckets)
    requires x in servers && ClearOf(x, Column(t, b), line)
    requires racks ==> TwoPositions(Column(t, b)[line := x])
    ensures SecondPassing(t1, Put(t, line, b, x), servers, racks, b, line + 1, buckets)
  {
    ColumnsOfPut(t, line, b, x, buckets);
    SlaveStep(Column(t1, b), Column(t, b), x, servers, racks, line);
  }

  // ----- the whole rebuild

  ghost predicate Separate(c: seq<Server>) {
    forall k, l :: 0 <= k < l < |c| ==> c[k].id != c[l].id
  }

  /** A kept master means that the first slave changed, if any, went to a server from outside the column. */
  ghost predicate KeptOrFresh(w: seq<Server>, c: seq<Server>)
    requires |w| == |c| > 0
  {
    c[0] == w[0] ==> forall l: nat :: 1 <= l < |c| && c[1..l] == w[1..l] ==> c[l] == w[l] || ClearOf(c[l], w, l)
  }

  /** A rebuilt column: available servers, pairwise different, spread over racks when asked to. */
  ghost predicate Rebuilt(w: seq<Server>, c: seq<Server>, servers: seq<Server>, racks: bool)
    requires |w| == |c| > 0
  {
    && (forall l :: 0 <= l < |c| ==> c[l] in servers)
    && Separate(c)
    && (racks && |c| > 1 ==> TwoPositions(c))
    && KeptOrFresh(w, c)
  }

  lemma BothPasses(t0: Table, t1: Table, t2: Table, m: map<Server, int>, cap: map<Server, int>,
                   servers: seq<Server>, racks: bool, buckets: nat)
    requires |t0| > 0 && Shaped(t0, |t0|, buckets) && Shaped(t1, |t0|, buckets) && Shaped(t2, |t0|, buckets)
    requires forall s :: s in servers ==> s in m
    requires FirstPassed(t0, t1, m, cap, servers, buckets, buckets)
    requires SecondPassed(t1, t2, servers, racks, buckets, buckets)
    ensures forall b: nat :: b < buckets ==> Rebuilt(Column(t0, b), Column(t2, b), servers, racks)
  {
    forall b: nat | b < buckets ensures Rebuilt(Column(t0, b), Column(t2, b), servers, racks) {
      var w0, w, c := Column(t0, b), Column(t1, b), Column(t2, b);
      assert SlavesPassed(w, c, servers, racks, |t0|);
      forall k: nat, l: nat | k < l < |c| ensures c[k].id != c[l].id { assert ClearOf(c[l], c, l); }
      if c[0] == w0[0] {
        assert SameColumn(t0, t1, b);
        assert w == w0;
      }
    }
  }
}
