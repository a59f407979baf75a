/** Whom the table builder accepts for a slot, and whom it picks (tair/table_builder.cpp:278-345, table_builder1.cpp:31-75,
    table_builder2.cpp:23-79). */
module Decisions {
  import opened Counting
  import opened Tables
  import opened Tallies
  import opened Books
  import opened Passes

  const CONSIDER_ALL := 0
  const CONSIDER_BASE := 2
  const CONSIDER_FORCE := 3

  datatype Verdict = NodeOk | InvalidNode | TooManyMaster | TooManyBucket | SameNode | SamePos

  /** The limits that is_this_node_OK reads. Those of RackSafety are per room, the main room being
      the rack with the most servers; the model leaves them arbitrary. */
  datatype Strategy =
    | LoadBalance(tokensMin: int, tokensMaxCount: int)
    | RackSafety(normal: bool, mainRoom: nat, mainMin: int, mainMaxCount: int, otherMin: int, otherMaxCount: int)
  {
    function TokensMin(s: Server): int {
      match this
      case LoadBalance(m, _) => m
      case RackSafety(_, room, mm, _, om, _) => if s.pos == room then mm else om
    }

    function TokensMaxCount(s: Server): int {
      match this
      case LoadBalance(_, c) => c
      case RackSafety(_, room, _, mc, _, oc) => if s.pos == room then mc else oc
    }
  }

  // ----- the admission test on the other copies of the bucket

  /** No other copy is in the position of s. */
  ghost predicate Elsewhere(s: Server, col: seq<Server>, line: nat) {
    forall k :: 0 <= k < |col| && k != line ==> col[k].pos != s.pos
  }

  /** Strategy 1: the first other copy on the same server, or (below CONSIDER_BASE) in the same position. */
  function BalanceClash(s: Server, line: nat, col: seq<Server>, level: int, i: nat): (v: Verdict)
    requires i <= |col|
    ensures v == NodeOk <==>
      forall k :: i <= k < |col| && k != line ==> col[k].id != s.id && (level < CONSIDER_BASE ==> col[k].pos != s.pos)
    decreases |col| - i
  {
    if i == |col| then NodeOk
    else if i != line && col[i].id == s.id then SameNode
    else if i != line && level < CONSIDER_BASE && col[i].pos == s.pos then SamePos
    else BalanceClash(s, line, col, level, i + 1)
  }

  /** Strategy 2: another copy on the same server, or (for slaves) every copy in one position. */
  function RackClash(s: Server, line: nat, col: seq<Server>, normal: bool): (v: Verdict)
    requires line < |col|
    ensures v == NodeOk <==> ClearOf(s, col, line) && (normal && line != 0 ==> TwoPositions(col[line := s]))
  {
    TwoPositionsWith(s, line, col);
    if exists k :: 0 <= k < |col| && k != line && col[k].id == s.id then SameNode
    else if normal && line != 0 && forall k :: 0 <= k < |col| && k != line ==> col[k].pos == s.pos then SamePos
    else NodeOk
  }

  lemma TwoPositionsWith(s: Server, line: nat, col: seq<Server>)
    requires line < |col|
    ensures TwoPositions(col[line := s]) <==> exists k :: 0 <= k < |col| && k != line && col[k].pos != s.pos
  {
    var c := col[line := s];
    if k :| 0 <= k < |col| && k != line && col[k].pos != s.pos {
      assert c[k].pos != c[line].pos;
    }
    if i, j :| 0 <= i < j < |c| && c[i].pos != c[j].pos {
      if c[i].pos == s.pos { assert col[j].pos != s.pos; } else { assert col[i].pos != s.pos; }
    }
  }

  // ----- what the builder sees when it decides

  datatype View = View(servers: seq<Server>, strategy: Strategy, copyCount: nat, bucketCount: nat, copies: Tally, masters: Tally,
                       now: map<Server, int>, maxCountNow: int, copyCap: map<Server, int>, masterCap: map<Server, int>, table: Table)
  {
    predicate Available(s: Server) { s.id != 0 && s in servers }

    ghost predicate Slot(line: nat, b: nat) { Shaped(table, copyCount, bucketCount) && line < copyCount && b < bucketCount }

    /** Whether the holder has room at a level; a holder already counted may stand at the limit. */
    predicate Room(s: Server, line: nat, level: int, inUse: bool) {
      var turn := if inUse then 1 else 0;
      if line == 0 then Lookup(masters.count, s) < Lookup(masterCap, s) + turn
      else if level == CONSIDER_ALL then Lookup(copies.count, s) < Lookup(copyCap, s) + turn
      else
        level == CONSIDER_FORCE || Lookup(now, s) < strategy.TokensMin(s) + turn || maxCountNow < strategy.TokensMaxCount(s) + turn
    }

    /** Whether the other copies admit s; masters are looked at alone at the base level. */
    ghost predicate Fits(s: Server, line: nat, b: nat, level: int)
      requires Slot(line, b)
    {
      var col := Column(table, b);
      || (line == 0 && level == CONSIDER_BASE)
      || (ClearOf(s, col, line) &&
          if strategy.LoadBalance? then level < CONSIDER_BASE ==> Elsewhere(s, col, line)
          else strategy.normal && line != 0 ==> TwoPositions(col[line := s]))
    }

    /** is_this_node_OK. */
    function Judge(s: Server, line: nat, b: nat, level: int, inUse: bool): (v: Verdict)
      requires Slot(line, b)
      ensures v == NodeOk <==> Available(s) && Room(s, line, level, inUse) && Fits(s, line, b, level)
    {
      var turn := if inUse then 1 else 0;
      if !Available(s) then InvalidNode
      else if line == 0 && Lookup(masters.count, s) >= Lookup(masterCap, s) + turn then TooManyMaster
      else if line != 0 && level == CONSIDER_ALL && Lookup(copies.count, s) >= Lookup(copyCap, s) + turn then
        TooManyBucket
      else if line != 0 && level != CONSIDER_ALL && level != CONSIDER_FORCE
              && Lookup(now, s) >= strategy.TokensMin(s) + turn
              && maxCountNow >= strategy.TokensMaxCount(s) + turn then
        TooManyBucket
      else if line == 0 && level == CONSIDER_BASE then NodeOk
      else if strategy.LoadBalance? then BalanceClash(s, line, Column(table, b), level, 0)
      else RackClash(s, line, Column(table, b), strategy.normal)
    }

    ghost predicate Accepts(s: Server, line: nat, b: nat, level: int)
      requires Slot(line, b)
    {
      Judge(s, line, b, level, false) == NodeOk
    }

    function TallyOf(line: nat): Tally { if line == 0 then masters else copies }

    function CapOf(line: nat): map<Server, int> { if line == 0 then masterCap else copyCap }

    function Surplus(line: nat, s: Server): int { Lookup(TallyOf(line).count, s) - Lookup(CapOf(line), s) }

    // ----- the search

    /** The result of get_suitable_node: r is accepted at a level, whom the stricter levels see they do not accept, r has the
        least surplus of those accepted at its level, and is the old holder if that one is as good. */
    ghost predicate FoundAt(line: nat, b: nat, original: Server, r: Server, level: int)
      requires Slot(line, b)
    {
      var groups := TallyOf(line).bySurplus;
      && CONSIDER_ALL <= level <= CONSIDER_FORCE && Accepts(r, line, b, level) && Visible(groups, level, r)
      && (forall l, s :: CONSIDER_ALL <= l < level && Visible(groups, l, s) ==> !Accepts(s, line, b, l))
      && (forall s :: Visible(groups, level, s) && Accepts(s, line, b, level) ==> Surplus(line, r) <= Surplus(line, s))
      && (forall s :: Visible(groups, level, s) && Accepts(s, line, b, level) && s.id == original.id ==>
                        r.id == original.id || Surplus(line, r) < Surplus(line, s))
    }

    /** The slot emptied, its holder no longer counted. */
    function Clear(line: nat, b: nat): (v: View)
      requires Slot(line, b)
      ensures v.Slot(line, b)
    {
      var e := table[line][b];
      this.(table := Put(table, line, b, e.(id := 0)), copies := Drop(copies, e, copyCap, servers),
            masters := DropMaster(masters, line, e, masterCap, servers))
    }

    // ----- the decision on a slave's slot

    /** x is the holder if it passes the strictest test, or else whom the search finds for the emptied slot. */
    ghost predicate SlaveDecided(line: nat, b: nat, x: Server)
      requires Slot(line, b)
    {
      var e := table[line][b];
      if Judge(e, line, b, CONSIDER_ALL, true) == NodeOk then x == e
      else exists level :: Clear(line, b).FoundAt(line, b, e, x, level)
    }

    // ----- the decision on a bucket's master

    /** The slave to promote: the first of those that master the fewest buckets, if it has room for one more. */
    ghost predicate Promotable(b: nat, line: nat)
      requires Slot(0, b)
    {
      && 1 <= line < copyCount && table[line][b] in servers
      && Lookup(masters.count, table[line][b]) < Lookup(masterCap, table[line][b])
      && (forall l :: 1 <= l < copyCount && table[l][b] in servers ==>
            Lookup(masters.count, table[line][b]) <= Lookup(masters.count, table[l][b]))
      && (forall l :: 1 <= l < line && table[l][b] in servers ==>
            Lookup(masters.count, table[line][b]) < Lookup(masters.count, table[l][b]))
    }

    /** t is the table with its master kept, exchanged for a slave, or else replaced by whom the search finds. */
    ghost predicate MasterDecided(b: nat, t: Table)
      requires Slot(0, b)
    {
      var e := table[0][b];
      if Judge(e, 0, b, CONSIDER_BASE, true) == NodeOk then t == table
      else if exists line: nat :: Promotable(b, line) then
        exists line: nat :: Promotable(b, line) && t == SwapMaster(table, b, line, servers)
      else exists x, level :: Clear(0, b).FoundAt(0, b, e, x, level) && t == Put(table, 0, b, x)
    }
  }

  /** How many keys are below k. */
  ghost function Rank(keys: set<int>, k: int): nat { |set j | j in keys && j < k| }

  /** The strictest level sees only the first group (by surplus, empty ones included), the next one the first two. */
  ghost predicate InReach(groups: map<int, set<Server>>, level: int, k: int) {
    k in groups && (level < CONSIDER_BASE ==> Rank(groups.Keys, k) <= level)
  }

  ghost predicate Visible(groups: map<int, set<Server>>, level: int, s: Server) {
    exists k :: InReach(groups, level, k) && s in groups[k]
  }

  lemma RankOfLeast(keys: set<int>, rest: set<int>, k: int)
    requires rest <= keys && k in rest && (forall j :: j in rest ==> k <= j) && forall j :: j in keys - rest ==> j < k
    ensures Rank(keys, k) == |keys - rest|
  {
    assert (set j | j in keys && j < k) == keys - rest;
  }

  lemma RankAtLeast(keys: set<int>, rest: set<int>, k: int)
    requires rest <= keys && k in rest && forall j :: j in keys - rest ==> j < k
    ensures Rank(keys, k) >= |keys - rest|
  {
    SubsetSize(keys - rest, set j | j in keys && j < k);
  }

  /** What a level leaves over is out of its reach. */
  lemma OutOfReach(groups: map<int, set<Server>>, rest: set<int>, level: int)
    requires rest <= groups.Keys && forall j, k :: j in groups.Keys - rest && k in rest ==> j < k
    requires rest == {} || (level < CONSIDER_BASE && |groups.Keys - rest| > level)
    ensures forall k :: InReach(groups, level, k) ==> k !in rest
  {
    forall k | InReach(groups, level, k) ensures k !in rest {
      if k in rest { RankAtLeast(groups.Keys, rest, k); }
    }
  }

  // ----- how the search establishes its result

  /** No level below `next` accepts anybody it sees. */
  ghost predicate NoneBelow(v: View, groups: map<int, set<Server>>, line: nat, b: nat, next: int)
    requires v.Slot(line, b)
  {
    forall l, s :: CONSIDER_ALL <= l < next && Visible(groups, l, s) ==> !v.Accepts(s, line, b, l)
  }

  lemma NoneAtLevel(v: View, groups: map<int, set<Server>>, line: nat, b: nat, level: int)
    requires v.Slot(line, b) && NoneBelow(v, groups, line, b, level)
    requires forall k, s :: InReach(groups, level, k) && s in groups[k] ==> !v.Accepts(s, line, b, level)
    ensures NoneBelow(v, groups, line, b, level + 1)
  {
  }

  /** Servers stand in the group of their surplus. */
  lemma GroupIsSurplus(v: View, line: nat, k: int, s: Server)
    requires Indexed(v.TallyOf(line), v.CapOf(line), v.servers) && k in v.TallyOf(line).bySurplus && s in v.TallyOf(line).bySurplus[k]
    ensures v.Surplus(line, s) == k
  {
    assert Filed(v.TallyOf(line).bySurplus, v.TallyOf(line).count, v.CapOf(line), k, s);
  }

  lemma FoundInGroup(v: View, line: nat, b: nat, original: Server, r: Server, level: int, g: int)
    requires v.Slot(line, b) && Indexed(v.TallyOf(line), v.CapOf(line), v.servers) && CONSIDER_ALL <= level <= CONSIDER_FORCE
    requires var groups := v.TallyOf(line).bySurplus;
      && NoneBelow(v, groups, line, b, level) && InReach(groups, level, g) && r in groups[g] && v.Accepts(r, line, b, level)
      && (forall k, s :: k in groups && k < g && s in groups[k] ==> !v.Accepts(s, line, b, level))
      && forall s :: s in groups[g] && v.Accepts(s, line, b, level) && s.id == original.id ==> r.id == original.id
    ensures v.FoundAt(line, b, original, r, level)
  {
    var groups := v.TallyOf(line).bySurplus;
    GroupIsSurplus(v, line, g, r);
    forall s | Visible(groups, level, s) && v.Accepts(s, line, b, level)
      ensures v.Surplus(line, r) <= v.Surplus(line, s)
      ensures s.id == original.id ==> r.id == original.id || v.Surplus(line, r) < v.Surplus(line, s)
    {
      var k :| InReach(groups, level, k) && s in groups[k];
      GroupIsSurplus(v, line, k, s);
    }
  }

  /** The relaxed levels see every server. */
  lemma NobodyAtAll(v: View, line: nat, b: nat)
    requires v.Slot(line, b) && Indexed(v.TallyOf(line), v.CapOf(line), v.servers)
    requires NoneBelow(v, v.TallyOf(line).bySurplus, line, b, CONSIDER_FORCE + 1)
    ensures forall s :: s in v.servers ==> !v.Accepts(s, line, b, CONSIDER_BASE) && !v.Accepts(s, line, b, CONSIDER_FORCE)
  {
    var tally, cap := v.TallyOf(line), v.CapOf(line);
    forall s | s in v.servers ensures !v.Accepts(s, line, b, CONSIDER_BASE) && !v.Accepts(s, line, b, CONSIDER_FORCE) {
      var k := tally.count[s] - Lookup(cap, s);
      assert Filed(tally.bySurplus, tally.count, cap, k, s);
      assert InReach(tally.bySurplus, CONSIDER_BASE, k) && InReach(tally.bySurplus, CONSIDER_FORCE, k);
      assert Visible(tally.bySurplus, CONSIDER_BASE, s) && Visible(tally.bySurplus, CONSIDER_FORCE, s);
    }
  }
}
