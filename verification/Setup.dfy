/** Preparing a rebuild: counting the source table, indexing the counts, sharing out capacities
    (tair/table_builder.cpp:117-145, 262-276, 382-413; tair/table_builder1.cpp:77-186). */
module Setup {
  import opened Counting
  import opened Tables
  import opened Tallies
  import opened Books

  ghost predicate Covers(m: map<Server, int>, servers: seq<Server>) {
    forall s :: s in m <==> s in servers
  }

  /** init_token_count */
  method ZeroCounts(servers: seq<Server>) returns (m: map<Server, int>)
    ensures Covers(m, servers) && forall s :: s in m ==> m[s] == 0
  {
    m := map[];
    for i := 0 to |servers|
      invariant Covers(m, servers[..i]) && forall s :: s in m ==> m[s] == 0
    {
      m := m[servers[i] := 0];
      assert servers[..i + 1] == servers[..i] + [servers[i]];
    }
    assert servers[..|servers|] == servers;
  }

  /** update_node_count over one line: entries that are no key are skipped; `all` says none was. */
  method CountLine(line: seq<Server>, m: map<Server, int>) returns (m': map<Server, int>, all: bool)
    ensures m'.Keys == m.Keys && forall s :: s in m ==> m'[s] == m[s] + multiset(line)[s]
    ensures all <==> forall i :: 0 <= i < |line| ==> line[i] in m
  {
    m', all := m, true;
    for i := 0 to |line|
      invariant m'.Keys == m.Keys
      invariant forall s :: s in m ==> m'[s] == m[s] + multiset(line[..i])[s]
      invariant all <==> forall j :: 0 <= j < i ==> line[j] in m
    {
      assert line[..i + 1] == line[..i] + [line[i]];
      if line[i] in m' {
        m' := m'[line[i] := m'[line[i]] + 1];
      } else {
        all := false;
      }
    }
    assert line[..|line|] == line;
  }

  lemma {:induction false} TotalOfAppend(t: Table, line: seq<Server>, s: Server)
    ensures Total(t + [line], s) == Total(t, s) + multiset(line)[s]
  {
    if t == [] {
      assert (t + [line])[1..] == [];
    } else {
      assert (t + [line])[1..] == t[1..] + [line];
      TotalOfAppend(t[1..], line, s);
    }
  }

  /** The counting loops of rebuild_table. */
  method CountTable(t: Table, servers: seq<Server>) returns (copies: map<Server, int>, masters: map<Server, int>)
    requires |t| > 0
    ensures Covers(copies, servers) && forall s :: s in servers ==> copies[s] == Total(t, s)
    ensures Covers(masters, servers) && forall s :: s in servers ==> masters[s] == multiset(t[0])[s]
  {
    copies := ZeroCounts(servers);
    masters := copies;
    var all;
    masters, all := CountLine(t[0], masters);
    for l := 0 to |t|
      invariant Covers(copies, servers) && forall s :: s in servers ==> copies[s] == Total(t[..l], s)
    {
      assert t[..l + 1] == t[..l] + [t[l]];
      forall s | s in servers ensures Total(t[..l + 1], s) == Total(t[..l], s) + multiset(t[l])[s] {
        TotalOfAppend(t[..l], t[l], s);
      }
      copies, all := CountLine(t[l], copies);
    }
    assert t[..|t|] == t;
  }

  lemma NothingFiled(base: map<Server, int>)
    ensures Files(map[], map[], base)
  {
    forall k, s ensures Filed(map[], map[], base, k, s) {}
  }

  /** build_index: group the servers by their count. */
  method BuildIndex(count: map<Server, int>, servers: seq<Server>) returns (index: map<int, set<Server>>)
    requires Covers(count, servers) && Distinct(servers)
    ensures Files(index, count, map[])
  {
    index := map[];
    ghost var seen: map<Server, int> := map[];
    NothingFiled(map[]);
    for i := 0 to |servers|
      invariant Covers(seen, servers[..i]) && forall s :: s in seen ==> seen[s] == count[s]
      invariant Files(index, seen, map[])
    {
      var s := servers[i];
      assert servers[..i + 1] == servers[..i] + [s];
      FileAnother(index, seen, map[], s, count[s]);
      index, seen := Add(index, count[s], s), seen[s := count[s]];
    }
    assert servers[..|servers|] == servers;
    assert seen == count;
  }

  /** One group of init_candidate. */
  method Regroup(group: set<Server>, n: int, cap: map<Server, int>, index: map<int, set<Server>>, ghost seen: map<Server, int>)
    returns (index': map<int, set<Server>>, ghost seen': map<Server, int>)
    requires Files(index, seen, cap) && forall s :: s in group ==> s !in seen
    ensures Files(index', seen', cap)
    ensures forall s :: s in seen' <==> s in seen || s in group
    ensures forall s :: s in seen' ==> seen'[s] == if s in seen then seen[s] else n
  {
    index', seen' := index, seen;
    var rest := group;
    while rest != {}
      invariant rest <= group
      invariant Files(index', seen', cap)
      invariant forall s :: s in seen' <==> s in seen || s in group - rest
      invariant forall s :: s in seen' ==> seen'[s] == if s in seen then seen[s] else n
      decreases rest
    {
      var s :| s in rest;
      rest := rest - {s};
      FileAnother(index', seen', cap, s, n);
      index', seen' := Add(index', n - Lookup(cap, s), s), seen'[s := n];
    }
  }

  /** init_candidate: regroup the servers, group by group, by their count minus their capacity. */
  method InitCandidate(byCount: map<int, set<Server>>, ghost count: map<Server, int>, cap: map<Server, int>)
    returns (index: map<int, set<Server>>)
    requires Files(byCount, count, map[])
    ensures Files(index, count, cap)
  {
    index := map[];
    var rest := byCount.Keys;
    ghost var seen: map<Server, int> := map[];
    NothingFiled(cap);
    forall n, s ensures n in byCount && s in byCount[n] ==> s in count && count[s] == n {
      assert Filed(byCount, count, map[], n, s);
    }
    forall s | s in count ensures count[s] in byCount && s in byCount[count[s]] {
      assert Filed(byCount, count, map[], count[s], s);
    }
    while rest != {}
      invariant rest <= byCount.Keys
      invariant forall s :: s in seen <==> s in count && count[s] !in rest
      invariant forall s :: s in seen ==> seen[s] == count[s]
      invariant Files(index, seen, cap)
      decreases rest
    {
      ghost var any := SomeMember(rest);
      var n :| n in rest;
      rest := rest - {n};
      index, seen := Regroup(byCount[n], n, cap, index, seen);
    }
    assert seen == count;
  }

  // ----- capacities of strategy 1

  lemma {:induction false} SumOfAppend(q: seq<Server>, x: Server, f: map<Server, int>)
    requires x in f && forall s :: s in q ==> s in f
    ensures SumOver(q + [x], f) == SumOver(q, f) + f[x]
  {
    if q == [] {
      assert q + [x] == [x];
    } else {
      assert (q + [x])[1..] == q[1..] + [x];
      SumOfAppend(q[1..], x, f);
    }
  }

  /** How many of the first i servers hold anything. */
  ghost function Busy(servers: seq<Server>, i: nat, count: map<Server, int>): nat
    requires i <= |servers|
  {
    if i == 0 then 0 else Busy(servers, i - 1, count) + One(Lookup(count, servers[i - 1]) != 0)
  }

  /** The mean of the nonzero counts, rounded down, or 0. */
  ghost function Mean(servers: seq<Server>, count: map<Server, int>): int
    requires forall s :: s in servers ==> s in count
  {
    var busy := Busy(servers, |servers|, count);
    if busy == 0 then 0 else SumOver(servers, count) / busy
  }

  method MeanOfBusy(servers: seq<Server>, count: map<Server, int>) returns (mean: int)
    requires forall s :: s in servers ==> s in count && count[s] >= 0
    ensures mean == Mean(servers, count)
  {
    var size, sum := 0, 0;
    for i := 0 to |servers|
      invariant size == Busy(servers, i, count) && sum == SumOver(servers[..i], count)
    {
      assert servers[..i + 1] == servers[..i] + [servers[i]];
      SumOfAppend(servers[..i], servers[i], count);
      if count[servers[i]] != 0 {
        size, sum := size + 1, sum + count[servers[i]];
      }
    }
    assert servers[..|servers|] == servers;
    mean := if size > 0 then sum / size else 0;
  }

  function Product(a: nat, b: nat): nat { a * b }

  lemma DivFacts(total: nat, n: nat)
    requires n > 0
    ensures 0 <= total - total / n * n < n && total - total / n * n == total % n && total / n >= 0
  {
  }

  /** i summands k. */
  ghost function Times(i: nat, k: int): int { if i == 0 then 0 else Times(i - 1, k) + k }

  lemma {:induction false} TimesIsProduct(i: nat, k: int)
    ensures Times(i, k) == i * k
  {
    if i > 0 {
      TimesIsProduct(i - 1, k);
      assert i * k == (i - 1) * k + k;
    }
  }

  /** How many of the first i servers held more than the old mean. */
  ghost function Above(servers: seq<Server>, i: nat, count: map<Server, int>, mean: int): (n: nat)
    requires i <= |servers|
    ensures n <= i
  {
    if i == 0 then 0 else Above(servers, i - 1, count, mean) + One(Lookup(count, servers[i - 1]) > mean)
  }

  /** Who gets the larger share: servers that held more than the mean, as long as there are larger shares, and of the others
      the last ones, when the smaller shares have run out. */
  ghost predicate GetsMore(servers: seq<Server>, count: map<Server, int>, mean: int, extra: int, i: nat)
    requires i < |servers|
  {
    var a := Above(servers, i, count, mean);
    if Lookup(count, servers[i]) > mean then a < extra else i - a >= |servers| - extra
  }

  function Min(a: int, b: int): int { if a < b then a else b }

  function Max(a: int, b: int): int { if a > b then a else b }

  /** The larger shares handed out when a servers above the mean and z others have been served. */
  ghost predicate Handed(n: int, extra: int, a: int, z: int, big: int) {
    0 <= big <= extra && a + z - big <= n - extra && big == Min(a, extra) + Max(0, z - (n - extra))
  }

  lemma ShareStep(n: int, extra: int, a: int, z: int, big: int, above: bool)
    requires 0 <= extra <= n && 0 <= a && 0 <= z && a + z < n && Handed(n, extra, a, z, big)
    ensures big < extra <==> a < extra
    ensures a + z - big >= n - extra <==> z >= n - extra
    ensures if above then Handed(n, extra, a + 1, z, big + One(a < extra)) else Handed(n, extra, a, z + 1, big + One(z >= n - extra))
  {
  }

  /** The test of the loop is GetsMore. */
  lemma GrowIs(servers: seq<Server>, count: map<Server, int>, mean: int, extra: int, i: nat, big: int)
    requires i < |servers| && 0 <= extra <= |servers|
    requires Handed(|servers|, extra, Above(servers, i, count, mean), i - Above(servers, i, count, mean), big)
    ensures GetsMore(servers, count, mean, extra, i) <==>
              if Lookup(count, servers[i]) <= mean then i - big >= |servers| - extra else big < extra
    ensures Handed(|servers|, extra, Above(servers, i + 1, count, mean), i + 1 - Above(servers, i + 1, count, mean),
                   big + One(GetsMore(servers, count, mean, extra, i)))
  {
    ShareStep(|servers|, extra, Above(servers, i, count, mean), i - Above(servers, i, count, mean), big, Lookup(count, servers[i]) > mean);
  }

  /** The first i servers have their shares. */
  ghost predicate SharedUpTo(cap: map<Server, int>, servers: seq<Server>, i: nat, least: int, extra: int, mean: int, count: map<Server, int>) {
    && i <= |servers| && Covers(cap, servers[..i])
    && forall k: nat {:trigger GetsMore(servers, count, mean, extra, k)} ::
         k < i ==> servers[k] in cap && cap[servers[k]] == least + One(GetsMore(servers, count, mean, extra, k))
  }

  lemma SharedStep(cap: map<Server, int>, servers: seq<Server>, i: nat, least: int, extra: int, mean: int, count: map<Server, int>)
    requires SharedUpTo(cap, servers, i, least, extra, mean, count) && i < |servers| && Distinct(servers)
    ensures var cap' := cap[servers[i] := least + One(GetsMore(servers, count, mean, extra, i))];
            SharedUpTo(cap', servers, i + 1, least, extra, mean, count)
  {
    assert servers[..i + 1] == servers[..i] + [servers[i]];
    assert servers[i] !in servers[..i];
  }

  lemma SumStep(cap: map<Server, int>, servers: seq<Server>, i: nat, x: int)
    requires i < |servers| && Distinct(servers) && Covers(cap, servers[..i])
    ensures (forall s :: s in servers[..i] ==> s in cap) && Covers(cap[servers[i] := x], servers[..i + 1])
    ensures SumOver(servers[..i + 1], cap[servers[i] := x]) == SumOver(servers[..i], cap) + x
  {
    var cap' := cap[servers[i] := x];
    assert servers[..i + 1] == servers[..i] + [servers[i]];
    SumOfSame(servers[..i], cap, cap');
    SumOfAppend(servers[..i], servers[i], cap');
  }

  lemma TimesShare(total: nat, n: nat)
    requires n > 0
    ensures 0 <= total - total / n * n < n && total - total / n * n == total % n && total / n >= 0
    ensures Times(n, total / n) + (total - total / n * n) == total
  {
    DivFacts(total, n);
    TimesIsProduct(n, total / n);
    Commutes(n, total / n);
  }

  /** The loop of caculate_capable: `extra` servers get one token more than the others. */
  method HandOut(servers: seq<Server>, least: int, extra: int, mean: int, count: map<Server, int>)
    returns (cap: map<Server, int>)
    requires Distinct(servers) && 0 <= extra <= |servers|
    requires forall s :: s in servers ==> s in count
    ensures SharedUpTo(cap, servers, |servers|, least, extra, mean, count)
    ensures SumOver(servers, cap) == Times(|servers|, least) + extra
  {
    var n := |servers|;
    cap := map[];
    var big := 0;
    for i := 0 to n
      invariant SharedUpTo(cap, servers, i, least, extra, mean, count)
      invariant Handed(n, extra, Above(servers, i, count, mean), i - Above(servers, i, count, mean), big)
      invariant SumOver(servers[..i], cap) == Times(i, least) + big
    {
      var s := servers[i];
      GrowIs(servers, count, mean, extra, i, big);
      var grow := if count[s] <= mean then i - big >= n - extra else big < extra;
      SharedStep(cap, servers, i, least, extra, mean, count);
      SumStep(cap, servers, i, if grow then least + 1 else least);
      cap := cap[s := if grow then least + 1 else least];
      big := if grow then big + 1 else big;
    }
    assert servers[..n] == servers;
  }

  /** The shares of `total` tokens, the larger ones by the counts before. */
  ghost predicate Shared(cap: map<Server, int>, servers: seq<Server>, total: nat, count: map<Server, int>) {
    && |servers| > 0 && (forall s :: s in servers ==> s in count)
    && SharedUpTo(cap, servers, |servers|, total / |servers|, total % |servers|, Mean(servers, count), count)
  }

  lemma EveryShare(cap: map<Server, int>, servers: seq<Server>, least: int, extra: int, mean: int, count: map<Server, int>, s: Server)
    requires SharedUpTo(cap, servers, |servers|, least, extra, mean, count) && s in servers
    ensures s in cap && (cap[s] == least || cap[s] == least + 1)
  {
    var i: nat :| i < |servers| && servers[i] == s;
    assert GetsMore(servers, count, mean, extra, i) || !GetsMore(servers, count, mean, extra, i);
  }

  /** caculate_capable for one kind of token: every server may hold the floor of the mean or one more, and
      together exactly `total`; GetsMore says who. */
  method ShareOut(servers: seq<Server>, total: nat, count: map<Server, int>)
    returns (cap: map<Server, int>, least: int, extra: int)
    requires |servers| > 0 && Distinct(servers)
    requires forall s :: s in servers ==> s in count && count[s] >= 0
    ensures Shared(cap, servers, total, count) && Covers(cap, servers)
    ensures forall s :: s in servers ==> cap[s] == total / |servers| || cap[s] == total / |servers| + 1
    ensures forall s :: s in servers ==> cap[s] >= 0
    ensures SumOver(servers, cap) == total
    ensures least == total / |servers| && extra == total % |servers|
  {
    least := total / |servers|;
    extra := total - least * |servers|;
    TimesShare(total, |servers|);
    var mean := MeanOfBusy(servers, count);
    cap := HandOut(servers, least, extra, mean, count);
    assert servers[..|servers|] == servers;
    forall s | s in servers ensures s in cap && (cap[s] == least || cap[s] == least + 1) {
      EveryShare(cap, servers, least, extra, mean, count, s);
    }
  }

  // ----- shares that are as they were

  ghost predicate Even(servers: seq<Server>, count: map<Server, int>, least: int) {
    forall s :: s in servers ==> s in count && (count[s] == least || count[s] == least + 1)
  }

  lemma {:induction false} EvenSum(servers: seq<Server>, i: nat, count: map<Server, int>, least: int)
    requires i <= |servers| && Even(servers, count, least)
    ensures SumOver(servers[..i], count) == Times(i, least) + Above(servers, i, count, least)
  {
    if i > 0 {
      EvenSum(servers, i - 1, count, least);
      assert servers[..i] == servers[..i - 1] + [servers[i - 1]];
      SumOfAppend(servers[..i - 1], servers[i - 1], count);
    }
  }

  lemma {:induction false} AboveGrows(servers: seq<Server>, i: nat, j: nat, count: map<Server, int>, mean: int)
    requires i < j <= |servers|
    ensures var up := Lookup(count, servers[i]) > mean;
      && Above(servers, i, count, mean) + One(up) <= Above(servers, j, count, mean)
      && i - Above(servers, i, count, mean) + One(!up) <= j - Above(servers, j, count, mean)
  {
    if i + 1 < j { AboveGrows(servers, i, j - 1, count, mean); }
  }

  lemma {:induction false} AllBusy(servers: seq<Server>, i: nat, count: map<Server, int>)
    requires i <= |servers| && forall k :: 0 <= k < i ==> Lookup(count, servers[k]) != 0
    ensures Busy(servers, i, count) == i
  {
    if i > 0 { AllBusy(servers, i - 1, count); }
  }

  lemma {:induction false} OnesBusy(servers: seq<Server>, i: nat, count: map<Server, int>)
    requires i <= |servers| && Even(servers, count, 0)
    ensures Busy(servers, i, count) == Above(servers, i, count, 0)
  {
    if i > 0 { OnesBusy(servers, i - 1, count); }
  }

  lemma {:induction false} NoneAbove(servers: seq<Server>, i: nat, count: map<Server, int>, mean: int)
    requires i <= |servers| && forall k :: 0 <= k < i ==> Lookup(count, servers[k]) <= mean
    ensures Above(servers, i, count, mean) == 0
  {
    if i > 0 { NoneAbove(servers, i - 1, count, mean); }
  }

  /** The mean of even counts that are not zero is the smaller of them, and just as many have the larger as there are larger
      shares. */
  lemma EvenMean(servers: seq<Server>, total: nat, count: map<Server, int>, least: int, extra: int)
    requires |servers| > 0 && Even(servers, count, least) && least > 0 && SumOver(servers, count) == total
    requires least == total / |servers| && extra == total % |servers|
    ensures Mean(servers, count) == least && Above(servers, |servers|, count, least) == extra
  {
    var n := |servers|;
    EvenSum(servers, n, count, least);
    assert servers[..n] == servers;
    TimesIsProduct(n, least);
    AllBusy(servers, n, count);
    DivFacts(total, n);
    Commutes(n, least);
  }

  lemma Commutes(a: int, b: int)
    ensures a * b == b * a
  {
  }

  /** With fewer tokens than servers, the last servers in line are to have them. */
  lemma FewMean(servers: seq<Server>, total: nat, count: map<Server, int>)
    requires |servers| > 0 && Even(servers, count, 0) && SumOver(servers, count) == total
    ensures Mean(servers, count) == if total == 0 then 0 else 1
    ensures forall i: nat :: i <= |servers| ==> Above(servers, i, count, Mean(servers, count)) == 0
  {
    var n := |servers|;
    EvenSum(servers, n, count, 0);
    assert servers[..n] == servers;
    TimesIsProduct(n, 0);
    OnesBusy(servers, n, count);
    var mean := Mean(servers, count);
    if total == 0 {
      forall k | 0 <= k < n ensures Lookup(count, servers[k]) <= 0 { AboveGrows(servers, k, n, count, 0); }
    } else {
      assert total / total == 1;
    }
    forall i: nat | i <= n ensures Above(servers, i, count, mean) == 0 { NoneAbove(servers, i, count, mean); }
  }

  /** The tokens are with the last servers in line. */
  ghost predicate OnLast(servers: seq<Server>, count: map<Server, int>, total: int) {
    forall i: nat :: i < |servers| ==> Lookup(count, servers[i]) == One(i >= |servers| - total)
  }

  lemma EvenShareAt(servers: seq<Server>, total: nat, count: map<Server, int>, cap: map<Server, int>, least: int, extra: int, i: nat)
    requires |servers| > 0 && Even(servers, count, least) && least > 0 && SumOver(servers, count) == total && i < |servers|
    requires least == total / |servers| && extra == total % |servers|
    requires SharedUpTo(cap, servers, |servers|, least, extra, Mean(servers, count), count)
    ensures cap[servers[i]] == count[servers[i]]
  {
    EvenMean(servers, total, count, least, extra);
    AboveGrows(servers, i, |servers|, count, least);
    assert GetsMore(servers, count, least, extra, i) <==> count[servers[i]] > least;
  }

  lemma FewShareAt(servers: seq<Server>, total: nat, count: map<Server, int>, cap: map<Server, int>, i: nat)
    requires |servers| > 0 && Even(servers, count, 0) && SumOver(servers, count) == total < |servers| && i < |servers|
    requires SharedUpTo(cap, servers, |servers|, 0, total, Mean(servers, count), count)
    ensures cap[servers[i]] == One(i >= |servers| - total)
  {
    FewMean(servers, total, count);
    if total == 0 { assert Mean(servers, count) == 0; EvenZero(servers, count, i); }
    assert GetsMore(servers, count, Mean(servers, count), total, i) <==> i >= |servers| - total;
  }

  lemma EvenZero(servers: seq<Server>, count: map<Server, int>, i: nat)
    requires Even(servers, count, 0) && SumOver(servers, count) == 0 && i < |servers|
    ensures count[servers[i]] == 0
  {
    EvenSum(servers, |servers|, count, 0);
    assert servers[..|servers|] == servers;
    TimesIsProduct(|servers|, 0);
    AboveGrows(servers, i, |servers|, count, 0);
  }

  /** Shares handed out anew are as the tokens lie already exactly if those lie evenly and, when there are fewer tokens than
      servers, with the last servers in line. */
  lemma SharesKeepIff(servers: seq<Server>, total: nat, count: map<Server, int>, cap: map<Server, int>, least: int, extra: int)
    requires |servers| > 0 && (forall s :: s in servers ==> s in count) && SumOver(servers, count) == total
    requires least == total / |servers| && extra == total % |servers|
    requires SharedUpTo(cap, servers, |servers|, least, extra, Mean(servers, count), count)
    ensures (forall s :: s in servers ==> s in cap && cap[s] == count[s]) <==>
              Even(servers, count, least) && (total >= |servers| || OnLast(servers, count, total))
  {
    var n := |servers|;
    if forall s :: s in servers ==> s in cap && cap[s] == count[s] {
      forall s | s in servers ensures count[s] == least || count[s] == least + 1 {
        EveryShare(cap, servers, least, extra, Mean(servers, count), count, s);
      }
    }
    if Even(servers, count, least) {
      if total >= n {
        FloorPositive(total, n);
        EvenShares(servers, total, count, cap, least, extra);
      } else {
        SmallQuotient(total, n);
        FewShares(servers, total, count, cap);
        FewKeep(servers, total, count, cap);
      }
    }
  }

  lemma EvenShares(servers: seq<Server>, total: nat, count: map<Server, int>, cap: map<Server, int>, least: int, extra: int)
    requires |servers| > 0 && Even(servers, count, least) && least > 0 && SumOver(servers, count) == total
    requires least == total / |servers| && extra == total % |servers|
    requires SharedUpTo(cap, servers, |servers|, least, extra, Mean(servers, count), count)
    ensures forall s :: s in servers ==> s in cap && cap[s] == count[s]
  {
    assert servers[..|servers|] == servers;
    forall s | s in servers ensures s in cap && cap[s] == count[s] {
      var i: nat :| i < |servers| && servers[i] == s;
      EvenShareAt(servers, total, count, cap, least, extra, i);
    }
  }

  lemma FewShares(servers: seq<Server>, total: nat, count: map<Server, int>, cap: map<Server, int>)
    requires |servers| > 0 && Even(servers, count, 0) && SumOver(servers, count) == total < |servers|
    requires SharedUpTo(cap, servers, |servers|, 0, total, Mean(servers, count), count)
    ensures forall i: nat :: i < |servers| ==> servers[i] in cap && cap[servers[i]] == One(i >= |servers| - total)
  {
    assert servers[..|servers|] == servers;
    forall i: nat | i < |servers| ensures servers[i] in cap && cap[servers[i]] == One(i >= |servers| - total) {
      FewShareAt(servers, total, count, cap, i);
    }
  }

  lemma SmallQuotient(total: nat, n: nat)
    requires total < n
    ensures total / n == 0 && total % n == total
  {
  }

  lemma FewKeep(servers: seq<Server>, total: nat, count: map<Server, int>, cap: map<Server, int>)
    requires forall s :: s in servers ==> s in count
    requires forall i: nat :: i < |servers| ==> servers[i] in cap && cap[servers[i]] == One(i >= |servers| - total)
    ensures (forall s :: s in servers ==> s in cap && cap[s] == count[s]) <==> OnLast(servers, count, total)
  {
    if OnLast(servers, count, total) {
      forall s | s in servers ensures s in cap && cap[s] == count[s] {
        var i: nat :| i < |servers| && servers[i] == s;
      }
    }
  }

  lemma FloorPositive(total: nat, n: nat)
    requires 0 < n <= total
    ensures total / n > 0
  {
    assert total / n * n + total % n == total;
  }

  lemma LineSum(servers: seq<Server>, line: seq<Server>, count: map<Server, int>)
    requires Distinct(servers) && (forall i :: 0 <= i < |line| ==> line[i] in servers)
    requires forall s :: s in servers ==> s in count && count[s] == multiset(line)[s]
    ensures SumOver(servers, count) == |line|
  {
    SumOfOccurrences(servers, line);
    SumOfSame(servers, count, Occurrences(servers, line));
  }

  /** The same for tokens in line. */
  lemma LineKeepsIff(servers: seq<Server>, line: seq<Server>, count: map<Server, int>, cap: map<Server, int>)
    requires Distinct(servers) && Shared(cap, servers, |line|, count) && (forall i :: 0 <= i < |line| ==> line[i] in servers)
    requires forall s :: s in servers ==> count[s] == multiset(line)[s]
    ensures (forall s :: s in servers ==> s in cap && cap[s] == count[s]) <==>
              Even(servers, count, |line| / |servers|) && (|line| >= |servers| || OnLast(servers, count, |line|))
    ensures forall s :: s in servers ==> s in cap
  {
    LineSum(servers, line, count);
    SharesKeepIff(servers, |line|, count, cap, |line| / |servers|, |line| % |servers|);
    assert servers[..|servers|] == servers;
  }
}
