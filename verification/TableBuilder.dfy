/** The bucket-table builder: strategy 1 (load balance) and the admission rule of strategy 2 (rack
    safety) over the shared rebuild passes (tair/table_builder.cpp, table_builder1.cpp, table_builder2.cpp). */
module TableBuilders {
  import opened Counting
  import opened Tables
  import opened Tallies
  import opened Books
  import opened Passes
  import opened Setup
  import opened QuickTables
  import opened Decisions
  import opened Moments

  datatype BuildResult = BuildError | BuildOk

  /** The limits of strategy 1 for `total` copies on n servers. */
  ghost predicate Limits(total: nat, n: nat, strategy: Strategy) {
    n > 0 && strategy == LoadBalance(total / n, total % n)
  }

  ghost predicate EvenCap(cap: map<Server, int>, servers: seq<Server>, buckets: nat) {
    && |servers| > 0
    && (forall s :: s in servers ==> s in cap && cap[s] >= 0)
    && (forall s :: s in servers ==> cap[s] == buckets / |servers| || cap[s] == buckets / |servers| + 1)
    && SumOver(servers, cap) == buckets
  }

  ghost predicate AtCap(count: map<Server, int>, cap: map<Server, int>, servers: seq<Server>) {
    forall s :: s in servers ==> s in count && s in cap && count[s] == cap[s]
  }

  class TableBuilder {
    const bucketCount: nat
    const copyCount: nat
    var servers: seq<Server>           // available_server, in iteration order
    var allowLoss: bool                // d_lost_flag == ALLOW_DATA_LOST_FALG
    var strategy: Strategy
    var copies: Tally                  // tokens_count_in_node, count_server, scandidate_node
    var masters: Tally                 // mtokens_count_in_node, mcount_server, mcandidate_node
    var now: map<Server, int>          // tokens_count_in_node_now
    var maxCountNow: int
    var copyCap: map<Server, int>      // server_capable
    var masterCap: map<Server, int>    // master_server_capable
    var table: Table

    constructor (buckets: nat, copyCount: nat, servers: seq<Server>, strategy: Strategy, allowLoss: bool, table: Table)
      ensures this.bucketCount == buckets && this.copyCount == copyCount && this.servers == servers
      ensures this.strategy == strategy && this.allowLoss == allowLoss && this.table == table
    {
      this.bucketCount, this.copyCount, this.servers := buckets, copyCount, servers;
      this.strategy, this.allowLoss, this.table := strategy, allowLoss, table;
      copies, masters := Tally(map[], map[], map[]), Tally(map[], map[], map[]);
      now, maxCountNow, copyCap, masterCap := map[], 0, map[], map[];
    }

    predicate Available(s: Server) reads this { s.id != 0 && s in servers }

    ghost predicate Proper() reads this {
      copyCount >= 1 && ProperShape(table, servers, copyCount, bucketCount)
    }

    /** The counters equal the true occurrence counts, and the indexes are their exact inverses. */
    ghost predicate Accurate() reads this {
      Ledger(table, copies, masters, copyCap, masterCap, servers, copyCount, bucketCount)
    }

    /** What admission to a slot means at every relaxation level. */
    ghost predicate Admissible(s: Server, line: nat, b: nat)
      requires Shaped(table, copyCount, bucketCount) && line < copyCount && b < bucketCount
      reads this
    {
      && s in servers
      && (line == 0 ==> Lookup(masters.count, s) < Lookup(masterCap, s))
      && (line != 0 ==> ClearOf(s, Column(table, b), line))
      && (line != 0 && strategy.RackSafety? && strategy.normal ==> TwoPositions(Column(table, b)[line := s]))
    }

    /** All that decisions depend on. */
    function V(): View reads this {
      View(servers, strategy, copyCount, bucketCount, copies, masters, now, maxCountNow, copyCap, masterCap, table)
    }

    /** is_this_node_OK. */
    function Judge(s: Server, line: nat, b: nat, level: int, inUse: bool): (v: Verdict)
      requires Shaped(table, copyCount, bucketCount) && line < copyCount && b < bucketCount
      reads this
      ensures v == V().Judge(s, line, b, level, inUse)
      ensures v == NodeOk ==> Available(s)
      ensures v == NodeOk && line == 0 ==> Lookup(masters.count, s) < Lookup(masterCap, s) + if inUse then 1 else 0
      ensures v == NodeOk && line != 0 ==> ClearOf(s, Column(table, b), line)
      ensures v == NodeOk && line != 0 && strategy.RackSafety? && strategy.normal ==>
                TwoPositions(Column(table, b)[line := s])
      ensures (Available(s) && line == 0 && level == CONSIDER_BASE
               && Lookup(masters.count, s) < Lookup(masterCap, s) + if inUse then 1 else 0) ==> v == NodeOk
      ensures (Available(s) && line != 0 && level == CONSIDER_FORCE && strategy.LoadBalance?
               && ClearOf(s, Column(table, b), line)) ==> v == NodeOk
    {
      V().Judge(s, line, b, level, inUse)
    }

    // ----- single-slot updates

    /** invaliad_node: take the entry out of the counters and clear its id. */
    method Invalidate(line: nat, b: nat)
      requires Proper() && line < copyCount && b < bucketCount
      modifies this`table, this`copies, this`masters
      ensures table == Put(old(table), line, b, old(table)[line][b].(id := 0))
      ensures copies == Drop(old(copies), old(table)[line][b], copyCap, servers)
      ensures masters == DropMaster(old(masters), line, old(table)[line][b], masterCap, servers)
    {
      var e := table[line][b];
      if Available(e) {
        copies := Bump(copies, e, copyCap, true);
        if line == 0 {
          masters := Bump(masters, e, masterCap, true);
        }
      }
      table := Put(table, line, b, e.(id := 0));
    }

    /** update_node: store a server and count it. */
    method Place(line: nat, b: nat, s: Server)
      requires Shaped(table, copyCount, bucketCount) && line < copyCount && b < bucketCount && Available(s)
      modifies this`table, this`copies, this`masters
      ensures table == Put(old(table), line, b, s)
      ensures copies == Bump(old(copies), s, copyCap, false)
      ensures masters == BumpMaster(old(masters), line, s, masterCap)
    {
      table := Put(table, line, b, s);
      copies := Bump(copies, s, copyCap, false);
      if line == 0 {
        masters := Bump(masters, s, masterCap, false);
      }
    }

    /** The search of change_master_node: the available slave of the bucket that masters the fewest
        buckets, or 0 if no slave is available. */
    method ChooseSlave(b: nat) returns (line: nat)
      requires Proper() && b < bucketCount
      ensures line == 0 <==> forall l :: 1 <= l < copyCount ==> table[l][b] !in servers
      ensures line != 0 ==> line < copyCount && table[line][b] in servers
      ensures line != 0 ==> forall l :: 1 <= l < copyCount && table[l][b] in servers ==>
                Lookup(masters.count, table[line][b]) <= Lookup(masters.count, table[l][b])
      ensures forall l :: 1 <= l < line && table[l][b] in servers ==>
                Lookup(masters.count, table[line][b]) < Lookup(masters.count, table[l][b])
    {
      line := 0;
      var fewest := -1;
      for l := 1 to copyCount
        invariant line == 0 ==> forall k :: 1 <= k < l ==> table[k][b] !in servers
        invariant line != 0 ==> line < l && table[line][b] in servers && fewest == Lookup(masters.count, table[line][b])
        invariant line != 0 ==> forall k :: 1 <= k < l && table[k][b] in servers ==>
                    fewest <= Lookup(masters.count, table[k][b])
        invariant forall k :: 1 <= k < line && table[k][b] in servers ==> fewest < Lookup(masters.count, table[k][b])
      {
        var e := table[l][b];
        if Available(e) {
          var n := Lookup(masters.count, e);
          if line == 0 || fewest > n {
            line, fewest := l, n;
          }
        }
      }
    }

    /** change_master_node: promote a slave, unless none is available or (without force) the one
        chosen already masters as many buckets as it may. */
    method ChangeMaster(b: nat, force: bool) returns (ok: bool, line: nat)
      requires Proper() && b < bucketCount
      modifies this`table, this`masters, this`now
      ensures !ok ==> table == old(table) && masters == old(masters) && now == old(now)
      ensures line == 0 <==> forall l :: 1 <= l < copyCount ==> old(table)[l][b] !in servers
      ensures line != 0 ==> line < copyCount && old(table)[line][b] in servers
      ensures line != 0 ==> forall l :: 1 <= l < copyCount && old(table)[l][b] in servers ==>
                Lookup(old(masters).count, old(table)[line][b]) <= Lookup(old(masters).count, old(table)[l][b])
      ensures ok <==> (line != 0 &&
                       (force || Lookup(old(masters).count, old(table)[line][b]) < Lookup(masterCap, old(table)[line][b])))
      ensures ok ==> table == SwapMaster(old(table), b, line, servers)
      ensures ok ==> masters == SwapTally(old(masters), old(table)[0][b], old(table)[line][b], masterCap, servers)
      ensures ok ==> OneMore(old(now), now, old(table)[line][b])
      ensures forall l :: 1 <= l < line && old(table)[l][b] in servers ==>
                Lookup(old(masters).count, old(table)[line][b]) < Lookup(old(masters).count, old(table)[l][b])
    {
      line := ChooseSlave(b);
      if line == 0 {
        return false, line;
      }
      var newMaster := table[line][b];
      if !force && Lookup(masters.count, newMaster) >= Lookup(masterCap, newMaster) {
        return false, line;
      }
      masters := SwapTally(masters, table[0][b], newMaster, masterCap, servers);
      now := now[newMaster := Lookup(now, newMaster) + 1];
      table := SwapMaster(table, b, line, servers);
      return true, line;
    }
  
    // ----- the search for a server to take a slot

    /** One group of equally loaded servers, walked in an arbitrary order: the last admissible server,
        or the original holder as soon as it is met. */
    method ScanGroup(group: set<Server>, line: nat, b: nat, level: int, original: Server) returns (r: Server)
      requires Shaped(table, copyCount, bucketCount) && line < copyCount && b < bucketCount
      ensures r.id != 0 ==> r in group && V().Accepts(r, line, b, level)
      ensures r.id == 0 ==> forall s :: s in group ==> !V().Accepts(s, line, b, level)
      ensures forall s :: s in group && V().Accepts(s, line, b, level) && s.id == original.id ==> r.id == original.id
    {
      r := Server(0, 0);
      var rest := group;
      while rest != {}
        invariant rest <= group
        invariant r.id != 0 ==> r in group && V().Accepts(r, line, b, level)
        invariant r.id == 0 ==> forall s :: s in group && s !in rest ==> !V().Accepts(s, line, b, level)
        invariant forall s :: s in group && s !in rest && V().Accepts(s, line, b, level) ==> s.id != original.id
        decreases rest
      {
        var s :| s in rest;
        rest := rest - {s};
        if Judge(s, line, b, level, false) == NodeOk {
          r := s;
          if r.id == original.id {
            break;
          }
        }
      }
    }

    /** One relaxation level: the groups in ascending order of surplus, of which the two strictest
        levels see only the first and the first two. */
    method ScanLevel(groups: map<int, set<Server>>, line: nat, b: nat, level: int, original: Server) returns (r: Server, ghost g: int)
      requires Shaped(table, copyCount, bucketCount) && line < copyCount && b < bucketCount && level >= CONSIDER_ALL
      ensures r.id != 0 ==> InReach(groups, level, g) && r in groups[g] && V().Accepts(r, line, b, level)
      ensures r.id != 0 ==> forall k, s :: k in groups && k < g && s in groups[k] ==> !V().Accepts(s, line, b, level)
      ensures r.id != 0 ==>
                forall s :: s in groups[g] && V().Accepts(s, line, b, level) && s.id == original.id ==> r.id == original.id
      ensures r.id == 0 ==> forall k, s :: InReach(groups, level, k) && s in groups[k] ==> !V().Accepts(s, line, b, level)
    {
      r, g := Server(0, 0), 0;
      var seen := CONSIDER_ALL;
      var rest := groups.Keys;
      while rest != {} && seen < level + 1 && r.id == 0
        invariant rest <= groups.Keys && forall j, k :: j in groups.Keys - rest && k in rest ==> j < k
        invariant seen == if level < CONSIDER_BASE then |groups.Keys - rest| else CONSIDER_ALL
        invariant level < CONSIDER_BASE ==> seen <= level + 1
        invariant r.id == 0 ==> forall k, s :: k in groups.Keys - rest && s in groups[k] ==> !V().Accepts(s, line, b, level)
        invariant r.id != 0 ==> InReach(groups, level, g) && r in groups[g] && V().Accepts(r, line, b, level)
        invariant r.id != 0 ==> forall k, s :: k in groups && k < g && s in groups[k] ==> !V().Accepts(s, line, b, level)
        invariant r.id != 0 ==>
          forall s :: s in groups[g] && V().Accepts(s, line, b, level) && s.id == original.id ==> r.id == original.id
        decreases rest
      {
        LeastExists(rest);
        var k :| k in rest && forall j :: j in rest ==> k <= j;
        RankOfLeast(groups.Keys, rest, k);
        g := k;
        assert groups.Keys - (rest - {k}) == groups.Keys - rest + {k};
        rest := rest - {k};
        r := ScanGroup(groups[k], line, b, level, original);
        if level < CONSIDER_BASE {
          seen := seen + 1;
        }
      }
      if r.id == 0 { OutOfReach(groups, rest, level); }
    }

    /** get_suitable_node: relax level by level until some server is admissible. */
    method GetSuitable(line: nat, b: nat, original: Server) returns (r: Server, ghost level: int)
      requires Proper() && line < copyCount && b < bucketCount
      requires Indexed(if line == 0 then masters else copies, if line == 0 then masterCap else copyCap, servers)
      ensures r.id != 0 ==> Admissible(r, line, b) && V().FoundAt(line, b, original, r, level)
      ensures r.id == 0 ==> forall s :: s in servers ==>
                Judge(s, line, b, CONSIDER_BASE, false) != NodeOk && Judge(s, line, b, CONSIDER_FORCE, false) != NodeOk
    {
      var tally := if line == 0 then masters else copies;
      var groups := tally.bySurplus;
      r := Server(0, 0);
      level := 0;
      var next := CONSIDER_ALL;
      while next <= CONSIDER_FORCE && r.id == 0
        invariant CONSIDER_ALL <= next <= CONSIDER_FORCE + 1
        invariant r.id != 0 ==> Admissible(r, line, b) && V().FoundAt(line, b, original, r, level)
        invariant r.id == 0 ==> NoneBelow(V(), groups, line, b, next)
      {
        level := next;
        ghost var g;
        r, g := ScanLevel(groups, line, b, next, original);
        if r.id != 0 { FoundInGroup(V(), line, b, original, r, level, g); } else { NoneAtLevel(V(), groups, line, b, next); }
        next := next + 1;
      }
      if r.id == 0 { NobodyAtAll(V(), line, b); }
    }
  
    // ----- fixing one slot

    /** What makes the search succeed: strategy 1, enough servers, master capacities for every bucket. */
    ghost predicate Roomy() reads this {
      && strategy.LoadBalance?
      && |servers| >= copyCount
      && (forall s :: s in servers ==> s in masterCap)
      && SumOver(servers, masterCap) == bucketCount
    }

    /** Some server masters fewer buckets than it may as long as one bucket has no available master. */
    lemma SpareMaster(b: nat) returns (s: Server)
      requires Accurate() && Roomy() && b < bucketCount && table[0][b] !in servers
      ensures s in servers && masters.count[s] < masterCap[s]
    {
      SumOfOccurrences(servers, table[0]);
      SumOfSame(servers, masters.count, Occurrences(servers, table[0]));
      s := SumSlack(servers, masters.count, masterCap);
    }

    /** With enough servers and capacity, some server is admissible for a cleared slot. */
    lemma SomeoneFits(line: nat, b: nat) returns (s: Server)
      requires Accurate() && Roomy() && line < copyCount && b < bucketCount && table[line][b] !in servers
      ensures s in servers
      ensures Judge(s, line, b, if line == 0 then CONSIDER_BASE else CONSIDER_FORCE, false) == NodeOk
    {
      if line == 0 {
        s := SpareMaster(b);
      } else {
        var col := Column(table, b);
        var used := col[..line] + col[line + 1..];
        s := SpareServer(servers, used);
        forall k | 0 <= k < |col| && k != line ensures col[k].id != s.id {
          assert col[k] == used[if k < line then k else k - 1];
        }
      }
    }

    /** The search succeeds whenever there is room. */
    method FindHolder(line: nat, b: nat, original: Server) returns (s: Server, ghost level: int)
      requires Accurate() && line < copyCount && b < bucketCount && table[line][b] !in servers
      ensures Roomy() ==> s.id != 0
      ensures s.id != 0 ==> Admissible(s, line, b) && V().FoundAt(line, b, original, s, level)
    {
      if Roomy() {
        var fit := SomeoneFits(line, b);
      }
      s, level := GetSuitable(line, b, original);
    }

    /** Find a holder for a cleared slot and store it there. */
    method Fill(line: nat, b: nat, original: Server) returns (s: Server, ghost level: int)
      requires Accurate() && line < copyCount && b < bucketCount && table[line][b] !in servers
      modifies this`table, this`copies, this`masters
      ensures Roomy() ==> s.id != 0
      ensures s.id != 0 ==> Accurate() && s in servers && table == Put(old(table), line, b, s)
      ensures s.id != 0 ==> masters == BumpMaster(old(masters), line, s, masterCap)
      ensures s.id != 0 ==> old(Admissible(s, line, b)) && old(V()).FoundAt(line, b, original, s, level)
    {
      s, level := FindHolder(line, b, original);
      if s.id != 0 {
        LedgerAfterBump(table, copies, masters, copyCap, masterCap, servers, copyCount, bucketCount, line, b, s);
        Place(line, b, s);
      }
    }

    /** Empty a slot and find it a new holder (tair/table_builder.cpp:475-486). */
    method Replace(line: nat, b: nat) returns (s: Server, ghost level: int)
      requires Accurate() && line < copyCount && b < bucketCount
      modifies this`table, this`copies, this`masters
      ensures Roomy() ==> s.id != 0
      ensures s.id != 0 ==> Accurate() && s in servers && table == Put(old(table), line, b, s)
      ensures s.id != 0 ==>
                masters == BumpMaster(DropMaster(old(masters), line, old(table)[line][b], masterCap, servers), line, s, masterCap)
      ensures s.id != 0 && line == 0 ==>
                Lookup(Drop(old(masters), old(table)[0][b], masterCap, servers).count, s) < Lookup(masterCap, s)
      ensures s.id != 0 && line != 0 ==> ClearOf(s, Column(old(table), b), line)
      ensures s.id != 0 && line != 0 && strategy.RackSafety? && strategy.normal ==>
                TwoPositions(Column(old(table), b)[line := s])
      ensures s.id != 0 ==> old(V()).Clear(line, b).FoundAt(line, b, old(table)[line][b], s, level)
    {
      var original := table[line][b];
      ghost var col, v := Column(table, b), V();
      LedgerAfterDrop(table, copies, masters, copyCap, masterCap, servers, copyCount, bucketCount, line, b);
      ColumnsOfPut(table, line, b, original.(id := 0), bucketCount);
      Invalidate(line, b);
      assert V() == v.Clear(line, b);
      s, level := Fill(line, b, original);
      PutOver(old(table), line, b, original.(id := 0), s);
      ClearOfOthers(s, col, line, original.(id := 0));
    }
  
    /** A treated slot counts towards its holder's running total (tair/table_builder.cpp:494-497). */
    method Note(s: Server)
      modifies this`now, this`maxCountNow
      ensures OneMore(old(now), now, s)
      ensures maxCountNow == old(maxCountNow) + if Lookup(old(now), s) == strategy.TokensMin(s) then 1 else 0
    {
      now := now[s := Lookup(now, s) + 1];
      if now[s] == strategy.TokensMin(s) + 1 {
        maxCountNow := maxCountNow + 1;
      }
    }

    ghost predicate Unfit(b: nat)
      requires Accurate() && b < bucketCount
      reads this
    {
      table[0][b] in servers ==> masters.count[table[0][b]] > Lookup(masterCap, table[0][b])
    }

    /** Promote a slave of bucket b if the one chosen has room for another master. */
    method PromoteSlave(b: nat) returns (ok: bool, ghost line: nat)
      requires Accurate() && b < bucketCount && Unfit(b)
      modifies this`table, this`masters, this`now
      ensures !ok ==> table == old(table) && masters == old(masters) && now == old(now)
      ensures Accurate()
      ensures ok ==> MasterSettled(old(table), table, old(masters).count, masters.count, masterCap, servers, b, bucketCount)
      ensures ok ==> old(V()).Promotable(b, line) && table == SwapMaster(old(table), b, line, servers)
      ensures ok ==> OneMore(old(now), now, old(table)[line][b])
      ensures !ok ==> forall l: nat :: !V().Promotable(b, l)
    {
      var chosen;
      ok, chosen := ChangeMaster(b, false);
      line := chosen;
      if ok {
        LedgerAfterSwap(old(table), copies, old(masters), copyCap, masterCap, servers, copyCount, bucketCount, b, line);
        SwapSettles(old(table), old(masters), masterCap, servers, b, line, bucketCount);
      } else {
        NoPromotion(V(), b, chosen);
      }
    }

    /** Give bucket b a new master from all servers with room, no slave being fit for it. */
    method ReplaceMaster(b: nat) returns (s: Server)
      requires Accurate() && b < bucketCount && Unfit(b) && Judge(table[0][b], 0, b, CONSIDER_BASE, true) != NodeOk
      requires forall l: nat :: !V().Promotable(b, l)
      modifies this`table, this`copies, this`masters
      ensures Roomy() ==> s.id != 0
      ensures s.id != 0 ==> MasterPlaced(old(V()), V(), b) && table[0][b] == s
    {
      ghost var v, level := V(), 0;
      s, level := Replace(0, b);
      if s.id != 0 {
        ReplacementPlaces(v, V(), b, s, level);
      }
    }

    method ReplaceAndNote(b: nat) returns (ok: bool)
      requires Accurate() && b < bucketCount && Unfit(b) && Judge(table[0][b], 0, b, CONSIDER_BASE, true) != NodeOk
      requires forall l: nat :: !V().Promotable(b, l)
      modifies this`table, this`copies, this`masters, this`now, this`maxCountNow
      ensures Roomy() ==> ok
      ensures ok ==> MasterTreated(old(V()), V(), b)
    {
      ghost var v := V();
      var s := ReplaceMaster(b);
      ok := s.id != 0;
      if ok {
        ghost var u := V();
        Note(s);
        MasterNoted(v, u, V(), b);
      }
    }

    /** Find bucket b another master. */
    method ChangeOrReplace(b: nat) returns (ok: bool)
      requires Accurate() && b < bucketCount && Unfit(b) && Judge(table[0][b], 0, b, CONSIDER_BASE, true) != NodeOk
      modifies this`table, this`copies, this`masters, this`now, this`maxCountNow
      ensures Roomy() ==> ok
      ensures ok ==> MasterTreated(old(V()), V(), b)
    {
      ghost var v, line := V(), 0;
      ok, line := PromoteSlave(b);
      if ok {
        PromotionTreats(v, V(), b, line);
      } else {
        assert V() == v;
        ok := ReplaceAndNote(b);
      }
    }

    /** The loop body of pass 1 (line 0): the master is kept, exchanged for a slave, or replaced. */
    method CheckMaster(b: nat) returns (ok: bool)
      requires Accurate() && b < bucketCount
      modifies this`table, this`copies, this`masters, this`now, this`maxCountNow
      ensures Roomy() ==> ok
      ensures ok ==> MasterTreated(old(V()), V(), b)
    {
      ghost var v := V();
      var e := table[0][b];
      if Judge(e, 0, b, CONSIDER_BASE, true) == NodeOk {
        Note(e);
        KeepingTreats(v, V(), b);
        return true;
      }
      ok := ChangeOrReplace(b);
    }

    /** Keep the holder of a slave's slot if it passes, or else replace it. */
    method SettleSlave(line: nat, b: nat) returns (ok: bool)
      requires Accurate() && 1 <= line < copyCount && b < bucketCount
      modifies this`table, this`copies, this`masters
      ensures Roomy() ==> ok
      ensures ok ==> Accurate() && masters == old(masters)
      ensures ok ==> table == Put(old(table), line, b, table[line][b])
      ensures ok ==> table[line][b] in servers && ClearOf(table[line][b], Column(old(table), b), line)
      ensures ok && strategy.RackSafety? && strategy.normal ==>
                TwoPositions(Column(old(table), b)[line := table[line][b]])
      ensures ok ==> old(V()).SlaveDecided(line, b, table[line][b])
    {
      var e := table[line][b];
      if Judge(e, line, b, CONSIDER_ALL, true) == NodeOk {
        assert table[line][b := e] == table[line];
        return true;
      }
      var s; ghost var level;
      s, level := Replace(line, b);
      ok := s.id != 0;
      assert ok ==> table[line][b] == s;
    }

    /** The loop body of pass 2 (the other lines). */
    method CheckSlave(line: nat, b: nat) returns (ok: bool)
      requires Accurate() && 1 <= line < copyCount && b < bucketCount
      modifies this`table, this`copies, this`masters, this`now, this`maxCountNow
      ensures Roomy() ==> ok
      ensures ok ==> Accurate() && masters == old(masters)
      ensures ok ==> table == Put(old(table), line, b, table[line][b])
      ensures ok ==> table[line][b] in servers && ClearOf(table[line][b], Column(old(table), b), line)
      ensures ok && strategy.RackSafety? && strategy.normal ==>
                TwoPositions(Column(old(table), b)[line := table[line][b]])
      ensures ok ==> old(V()).SlaveDecided(line, b, table[line][b])
      ensures ok ==> OneMore(old(now), now, table[line][b])
    {
      ok := SettleSlave(line, b);
      if ok {
        Note(table[line][b]);
      }
    }
  
    // ----- the passes

    ghost predicate Racks() reads this { strategy.RackSafety? && strategy.normal }

    /** One bucket of pass 1. */
    method TreatMaster(b: nat, ghost f: View, ghost t0: Table) returns (ok: bool)
      requires InFirstPass(V(), f, t0, b) && b < bucketCount
      modifies this`table, this`copies, this`masters, this`now, this`maxCountNow
      ensures Roomy() ==> ok
      ensures ok ==> InFirstPass(V(), f, t0, b + 1)
    {
      ghost var v := V();
      ok := CheckMaster(b);
      if ok {
        FirstStep(v, f, t0, b, V());
      }
    }

    method FirstPass() returns (ok: bool)
      requires Accurate() && NowMasters(now, table[0], servers, 0)
      modifies this`table, this`copies, this`masters, this`now, this`maxCountNow
      ensures Roomy() ==> ok
      ensures ok ==> InFirstPass(V(), old(V()), old(table), bucketCount)
    {
      ghost var f := V();
      StartFirst(f);
      for b := 0 to bucketCount
        invariant InFirstPass(V(), f, f.table, b)
      {
        ok := TreatMaster(b, f, f.table);
        if !ok {
          return false;
        }
      }
      return true;
    }

    /** One slot of pass 2. */
    method TreatSlave(line: nat, b: nat, ghost f: View, ghost t1: Table) returns (ok: bool)
      requires InPass(V(), f, t1, Racks(), b, line) && line < copyCount
      modifies this`table, this`copies, this`masters, this`now, this`maxCountNow
      ensures Roomy() ==> ok
      ensures ok ==> InPass(V(), f, t1, Racks(), b, line + 1) && masters == old(masters)
    {
      ghost var v := V();
      ok := CheckSlave(line, b);
      if ok {
        InPassStep(v, f, t1, Racks(), b, line, table[line][b], V());
      }
    }

    /** Pass 2 on one bucket: its lines 1, 2, ... in order. */
    method CheckSlaves(b: nat, ghost f: View, ghost t1: Table) returns (ok: bool)
      requires BetweenBuckets(V(), f, t1, Racks(), b) && b < bucketCount
      modifies this`table, this`copies, this`masters, this`now, this`maxCountNow
      ensures Roomy() ==> ok
      ensures ok ==> BetweenBuckets(V(), f, t1, Racks(), b + 1) && masters == old(masters)
    {
      EnterBucket(V(), f, t1, Racks(), b);
      for line := 1 to copyCount
        invariant InPass(V(), f, t1, Racks(), b, line) && masters == old(masters)
      {
        ok := TreatSlave(line, b, f, t1);
        if !ok {
          return false;
        }
      }
      LeaveBucket(V(), f, t1, Racks(), b);
      return true;
    }

    method SecondPass(ghost f: View) returns (ok: bool)
      requires Accurate() && NowMasters(now, table[0], servers, bucketCount) && Like(V(), f)
      modifies this`table, this`copies, this`masters, this`now, this`maxCountNow
      ensures Roomy() ==> ok
      ensures ok ==> Accurate() && masters == old(masters)
      ensures ok ==> SecondPassed(old(table), table, servers, Racks(), bucketCount, bucketCount)
      ensures ok ==> Like(V(), f) && SlavesExplained(f, old(table), table, bucketCount, 1)
    {
      ghost var t1 := table;
      StartPass(V(), f, Racks());
      for b := 0 to bucketCount
        invariant BetweenBuckets(V(), f, t1, Racks(), b) && masters == old(masters)
      {
        ok := CheckSlaves(b, f, t1);
        if !ok {
          return false;
        }
      }
      return true;
    }
  
    // ----- rebuild_table

    /** The capacities strategy 1 hands out: shares of the buckets that differ by at most one. */
    ghost predicate EvenMasters() reads this { EvenCap(masterCap, servers, bucketCount) }

    /** caculate_capable. Those of strategy 2 are any values at all. */
    method CalculateCapable()
      requires |servers| > 0 && Distinct(servers)
      requires forall s :: s in servers ==> s in copies.count && copies.count[s] >= 0
      requires forall s :: s in servers ==> s in masters.count && masters.count[s] >= 0
      modifies this`copyCap, this`masterCap, this`strategy
      ensures strategy.LoadBalance? == old(strategy).LoadBalance?
      ensures strategy.RackSafety? ==> strategy == old(strategy)
      ensures strategy.LoadBalance? ==> EvenMasters() && Shared(masterCap, servers, bucketCount, masters.count)
      ensures strategy.LoadBalance? ==>
                Shared(copyCap, servers, Product(bucketCount, copyCount), copies.count)
                && Limits(Product(bucketCount, copyCount), |servers|, strategy)
    {
      if strategy.LoadBalance? {
        var least, extra;
        copyCap, least, extra := ShareOut(servers, Product(bucketCount, copyCount), copies.count);
        strategy := LoadBalance(least, extra);
        masterCap, least, extra := ShareOut(servers, bucketCount, masters.count);
      } else {
        copyCap, masterCap := *, *;
      }
    }

    /** Count the source table and compute the capacities. */
    method CountSource(source: Table)
      requires copyCount >= 1 && ProperShape(source, servers, copyCount, bucketCount) && |servers| > 0
      modifies this`copies, this`masters, this`copyCap, this`masterCap, this`strategy
      ensures strategy.LoadBalance? == old(strategy).LoadBalance?
      ensures strategy.RackSafety? ==> strategy == old(strategy)
      ensures Covers(copies.count, servers) && forall s :: s in servers ==> copies.count[s] == Total(source, s)
      ensures Covers(masters.count, servers) && forall s :: s in servers ==> masters.count[s] == multiset(source[0])[s]
      ensures Files(copies.byCount, copies.count, map[]) && Files(masters.byCount, masters.count, map[])
      ensures strategy.LoadBalance? ==> EvenMasters() && Shared(masterCap, servers, bucketCount, masters.count)
      ensures strategy.LoadBalance? ==>
                Shared(copyCap, servers, Product(bucketCount, copyCount), copies.count)
                && Limits(Product(bucketCount, copyCount), |servers|, strategy)
    {
      var count, mcount := CountTable(source, servers);
      var byCount := BuildIndex(count, servers);
      var byMcount := BuildIndex(mcount, servers);
      copies, masters := Tally(count, byCount, map[]), Tally(mcount, byMcount, map[]);
      CalculateCapable();
    }

    /** Count the source table, compute the capacities and build the indexes. */
    method Prepare(source: Table)
      requires copyCount >= 1 && ProperShape(source, servers, copyCount, bucketCount) && |servers| > 0
      modifies this`table, this`copies, this`masters, this`now, this`maxCountNow, this`copyCap, this`masterCap, this`strategy
      ensures table == source && Accurate() && NowMasters(now, table[0], servers, 0)
      ensures strategy.LoadBalance? == old(strategy).LoadBalance?
      ensures strategy.RackSafety? ==> strategy == old(strategy)
      ensures strategy.LoadBalance? ==> EvenMasters() && Shared(masterCap, servers, bucketCount, masters.count)
      ensures strategy.LoadBalance? ==>
                Shared(copyCap, servers, Product(bucketCount, copyCount), copies.count)
                && Limits(Product(bucketCount, copyCount), |servers|, strategy)
    {
      now := ZeroCounts(servers);
      maxCountNow := 0;
      CountSource(source);
      var mcandidate := InitCandidate(masters.byCount, masters.count, masterCap);
      var scandidate := InitCandidate(copies.byCount, copies.count, copyCap);
      copies, masters := copies.(bySurplus := scandidate), masters.(bySurplus := mcandidate);
      LedgerOfParts(source, copies, masters, copyCap, masterCap, servers, copyCount, bucketCount);
      table := source;
    }

    lemma MastersBalanced(t0: Table)
      requires Accurate() && EvenMasters() && |t0| == copyCount && Shaped(t0, |t0|, bucketCount)
      requires FirstPassed(t0, table, masters.count, masterCap, servers, bucketCount, bucketCount)
      ensures Balanced()
    {
      ExactBalance(table, masters, masterCap, servers, bucketCount);
    }

    ghost predicate Balanced() reads this { AtCap(masters.count, masterCap, servers) }

    /** The first pass leaves even shares exactly filled. */
    method SettleMasters() returns (ok: bool)
      requires Accurate() && NowMasters(now, table[0], servers, 0)
      modifies this`table, this`copies, this`masters, this`now, this`maxCountNow
      ensures Roomy() ==> ok
      ensures ok ==> InFirstPass(V(), old(V()), old(table), bucketCount)
      ensures ok && EvenMasters() ==> Balanced()
    {
      ok := FirstPass();
      if ok && EvenMasters() {
        MastersBalanced(old(table));
      }
    }

    /** Both passes over a table whose counters are accurate. */
    method RunPasses() returns (ok: bool)
      requires Accurate() && NowMasters(now, table[0], servers, 0)
      modifies this`table, this`copies, this`masters, this`now, this`maxCountNow
      ensures Roomy() ==> ok
      ensures ok ==> Accurate()
      ensures ok ==>
                forall b: nat :: b < bucketCount ==> Rebuilt(Column(old(table), b), Column(table, b), servers, Racks())
      ensures ok && EvenMasters() ==> Balanced()
      ensures ok ==> Decided(V(), old(table))
    {
      ghost var f := V();
      ok := SettleMasters();
      if ok {
        ghost var t1, m := table, masters;
        ok := SecondPass(f);
        if ok {
          BothPasses(old(table), t1, table, m.count, masterCap, servers, Racks(), bucketCount);
          IsRebuilding(f, f.table, t1, table);
          IsDecided(V(), f, f.table, t1);
        }
      }
    }

    /** Both passes, when the shares are handed out and there are servers enough. */
    method BuildFrom() returns (ok: bool)
      requires Accurate() && NowMasters(now, table[0], servers, 0) && |servers| >= copyCount
      requires strategy.LoadBalance? ==> EvenMasters()
      modifies this`table, this`copies, this`masters, this`now, this`maxCountNow
      ensures strategy.LoadBalance? ==> ok
      ensures ok ==> Proper() && Decided(V(), old(table))
      ensures ok ==>
                forall b: nat :: b < bucketCount ==> Rebuilt(Column(old(table), b), Column(table, b), servers, Racks())
      ensures ok && strategy.LoadBalance? ==> forall s :: s in servers ==> multiset(table[0])[s] == masterCap[s]
    {
      ok := RunPasses();
    }

    /** The line of masters is kept exactly if every server already masters its share. */
    lemma KeptMasters(source: Table)
      requires Proper() && Decided(V(), source) && Shaped(source, copyCount, bucketCount) && EvenMasters()
      requires forall b: nat :: b < bucketCount ==> Rebuilt(Column(source, b), Column(table, b), servers, Racks())
      requires forall s :: s in servers ==> multiset(table[0])[s] == masterCap[s]
      ensures table[0] == source[0] <==> MastersAtShare(source)
    {
      forall c: nat | c < bucketCount ensures table[0][c] in servers {
        assert Column(table, c)[0] in servers;
      }
      MastersKeptIff(V(), source);
    }

    ghost predicate MastersAtShare(t: Table)
      reads this
    {
      && |t| > 0 && (forall c :: 0 <= c < |t[0]| ==> t[0][c] in servers)
      && forall s :: s in servers ==> multiset(t[0])[s] == Lookup(masterCap, s)
    }

    /** The masters are all available and lie evenly; if there are fewer buckets than servers, with the last servers in line. */
    ghost predicate AlreadyEven(t: Table)
      reads this
    {
      && |t| > 0 && |servers| > 0 && (forall c :: 0 <= c < |t[0]| ==> t[0][c] in servers)
      && (forall s :: s in servers ==>
            multiset(t[0])[s] == bucketCount / |servers| || multiset(t[0])[s] == bucketCount / |servers| + 1)
      && (bucketCount >= |servers|
          || forall i: nat :: i < |servers| ==> multiset(t[0])[servers[i]] == One(i >= |servers| - bucketCount))
    }

    lemma AtShareIff(t: Table, count: map<Server, int>)
      requires |t| > 0 && |t[0]| == bucketCount && ProperServers(servers) && EvenMasters()
      requires Shared(masterCap, servers, bucketCount, count) && forall s :: s in servers ==> count[s] == multiset(t[0])[s]
      ensures MastersAtShare(t) <==> AlreadyEven(t)
    {
      if forall c :: 0 <= c < |t[0]| ==> t[0][c] in servers { LineKeepsIff(servers, t[0], count, masterCap); }
    }

    /** rebuild_table: every bucket gets copyCount available, pairwise different servers, whatever the source
        table holds; strategy 1 fails only for want of servers and balances the masters exactly. Every entry is
        what the decisions of the two passes make it. */
    method Rebuild(source: Table) returns (r: BuildResult)
      requires copyCount >= 1 && ProperShape(source, servers, copyCount, bucketCount) && |servers| > 0
      requires strategy.RackSafety? && strategy.normal ==> copyCount >= 2
      modifies this`table, this`copies, this`masters, this`now, this`maxCountNow, this`copyCap, this`masterCap, this`strategy
      ensures strategy.LoadBalance? == old(strategy).LoadBalance? && Racks() == old(Racks())
      ensures strategy.LoadBalance? ==> (r == BuildOk <==> |servers| >= copyCount)
      ensures r == BuildOk ==> Proper()
      ensures r == BuildOk ==>
                forall b: nat :: b < bucketCount ==> Rebuilt(Column(source, b), Column(table, b), servers, Racks())
      ensures r == BuildOk && strategy.LoadBalance? ==>
                EvenMasters() && forall s :: s in servers ==> multiset(table[0])[s] == masterCap[s]
      ensures r == BuildOk && strategy.RackSafety? ==> strategy.normal
      ensures r == BuildOk ==> Decided(V(), source)
      ensures r == BuildOk && strategy.LoadBalance? ==> (table[0] == source[0] <==> AlreadyEven(source))
    {
      if strategy.RackSafety? && !strategy.normal {
        return BuildError;
      }
      Prepare(source);
      if |servers| < copyCount {
        return BuildError;
      }
      ghost var count := masters.count;
      var ok := BuildFrom();
      if ok && strategy.LoadBalance? {
        KeptMasters(source);
        AtShareIff(source, count);
      }
      r := if ok then BuildOk else BuildError;
    }
  
    // ----- build_quick_table

    /** The first loop: every lost master is replaced by a slave, if there is one. */
    method RepairMasters() returns (ok: bool)
      requires Proper()
      modifies this`table, this`masters, this`now
      ensures Proper()
      ensures ok <==> (allowLoss || forall b: nat :: b < bucketCount ==> HasCopy(Column(old(table), b), servers))
      ensures ok ==> RepairedUpTo(old(table), table, servers, bucketCount, bucketCount)
    {
      for b := 0 to bucketCount
        invariant Proper()
        invariant RepairedUpTo(old(table), table, servers, b, bucketCount)
        invariant allowLoss || forall k: nat :: k < b ==> HasCopy(Column(old(table), k), servers)
      {
        ok := RepairMaster(b, old(table));
        if !ok {
          return false;
        }
      }
      return true;
    }

    method RepairMaster(b: nat, ghost w: Table) returns (ok: bool)
      requires Proper() && b < bucketCount && |w| == copyCount && Shaped(w, |w|, bucketCount)
      requires RepairedUpTo(w, table, servers, b, bucketCount)
      modifies this`table, this`masters, this`now
      ensures Proper()
      ensures ok <==> (allowLoss || HasCopy(Column(w, b), servers))
      ensures ok ==> RepairedUpTo(w, table, servers, b + 1, bucketCount)
    {
      ghost var col := Column(table, b);
      if Available(table[0][b]) {
        assert col[0] in servers;
        return true;
      }
      var swapped, line := ChangeMaster(b, true);
      if swapped {
        ColumnOfSwap(old(table), b, line, servers, bucketCount);
        ProperAfterPut(old(table), servers, copyCount, bucketCount, 0, b, old(table)[line][b]);
        ProperAfterPut(Put(old(table), 0, b, old(table)[line][b]), servers, copyCount, bucketCount,
                       line, b, SwappedBack(old(table)[0][b], old(table)[line][b], servers));
        assert col[line] in servers;
        return true;
      }
      assert !HasCopy(col, servers);
      return allowLoss;
    }

    /** The second loop: clear every other slot that names no available server. */
    method CleanSlaves()
      requires Shaped(table, copyCount, bucketCount) && ProperServers(servers)
      modifies this`table
      ensures Shaped(table, copyCount, bucketCount)
      ensures CleanedUpTo(old(table), table, servers, copyCount, 0, bucketCount)
    {
      var line := 1;
      while line < copyCount
        invariant 1 <= line && (line <= copyCount || copyCount == 0)
        invariant Shaped(table, copyCount, bucketCount)
        invariant CleanedUpTo(old(table), table, servers, line, 0, bucketCount)
      {
        for b := 0 to bucketCount
          invariant Shaped(table, copyCount, bucketCount)
          invariant CleanedUpTo(old(table), table, servers, line, b, bucketCount)
        {
          if !Available(table[line][b]) {
            table := Put(table, line, b, NOBODY);
          }
        }
        line := line + 1;
      }
    }

    /** build_quick_table: without tolerance for loss it succeeds exactly if every bucket has an available copy. */
    method BuildQuickTable() returns (ok: bool)
      requires Proper()
      modifies this`table, this`masters, this`now
      ensures ok <==> (allowLoss || forall b: nat :: b < bucketCount ==> HasCopy(Column(old(table), b), servers))
      ensures ok ==> Shaped(table, copyCount, bucketCount)
      ensures ok ==> forall b: nat :: b < bucketCount ==> QuickColumn(Column(old(table), b), Column(table, b), servers)
    {
      ok := RepairMasters();
      if ok {
        ghost var r := table;
        CleanSlaves();
        AllCleaned(old(table), r, table, servers, bucketCount);
      }
    }
  }
}
