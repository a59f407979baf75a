/** The emergency repair build_quick_table, column by column (tair/table_builder.cpp:197-245, 347-375). */
module QuickTables {
  import opened Counting
  import opened Tables
  import opened Tallies
  import opened Books

  const NOBODY := Server(0, 0)

  function Kept(e: Server, servers: seq<Server>): Server { if e in servers then e else NOBODY }

  ghost predicate HasCopy(w: seq<Server>, servers: seq<Server>) {
    exists l :: 0 <= l < |w| && w[l] in servers
  }

  /** The slave at `line` became master, and its old slot lost its id. */
  ghost predicate Promoted(w: seq<Server>, c: seq<Server>, servers: seq<Server>, line: nat) {
    && 1 <= line < |w| && w[line] in servers
    && c == w[0 := w[line]][line := w[line].(id := 0)]
  }

  /** A column after the first loop: only a lost master is touched. */
  ghost predicate Repaired(w: seq<Server>, c: seq<Server>, servers: seq<Server>)
    requires |w| > 0
  {
    if w[0] in servers || !HasCopy(w, servers) then c == w
    else exists line: nat :: Promoted(w, c, servers, line)
  }

  /** A column after the second loop, from its state r after the first one. */
  ghost predicate Cleaned(r: seq<Server>, c: seq<Server>, servers: seq<Server>)
  {
    |c| == |r| > 0 && c[0] == r[0] && forall l :: 1 <= l < |r| ==> c[l] == Kept(r[l], servers)
  }

  /** A column of the finished quick table. */
  ghost predicate QuickColumn(w: seq<Server>, c: seq<Server>, servers: seq<Server>)
    requires |w| > 0
  {
    exists r :: Repaired(w, r, servers) && Cleaned(r, c, servers)
  }

  lemma CountOfUpdate(c: seq<Server>, i: nat, e: Server, s: Server)
    requires i < |c|
    ensures multiset(c[i := e])[s] == multiset(c)[s] - One(c[i] == s) + One(e == s)
  {
    assert multiset(c[i := e]) == multiset(c) - multiset{c[i]} + multiset{e};
  }

  lemma {:induction false} CleaningKeepsServers(r: seq<Server>, c: seq<Server>, servers: seq<Server>, s: Server)
    requires |c| == |r| && s in servers && ProperServers(servers)
    requires forall l :: 0 <= l < |r| ==> c[l] == r[l] || (r[l] !in servers && c[l] == NOBODY)
    ensures multiset(c)[s] == multiset(r)[s]
  {
    if r != [] {
      CleaningKeepsServers(r[1..], c[1..], servers, s);
      assert r == [r[0]] + r[1..] && c == [c[0]] + c[1..];
      assert NOBODY != s;
    }
  }

  /** Conservation: a bucket with an available copy gets an available master, every available server holds
      as many of its copies as before, and all other slots are empty. */
  lemma QuickConserves(w: seq<Server>, c: seq<Server>, servers: seq<Server>)
    requires |w| > 0 && ProperServers(servers) && HasCopy(w, servers) && QuickColumn(w, c, servers)
    ensures |c| == |w| && c[0] in servers
    ensures forall s :: s in servers ==> multiset(c)[s] == multiset(w)[s]
    ensures forall l :: 0 <= l < |c| ==> c[l] in servers || c[l] == NOBODY
  {
    var r :| Repaired(w, r, servers) && Cleaned(r, c, servers);
    forall s | s in servers ensures multiset(c)[s] == multiset(w)[s] {
      CleaningKeepsServers(r, c, servers, s);
      RepairKeepsServers(w, r, servers, s);
    }
  }

  lemma RepairKeepsServers(w: seq<Server>, r: seq<Server>, servers: seq<Server>, s: Server)
    requires |w| > 0 && ProperServers(servers) && HasCopy(w, servers) && Repaired(w, r, servers) && s in servers
    ensures multiset(r)[s] == multiset(w)[s]
  {
    if w[0] !in servers {
      var line: nat :| Promoted(w, r, servers, line);
      CountOfUpdate(w, 0, w[line], s);
      CountOfUpdate(w[0 := w[line]], line, w[line].(id := 0), s);
    }
  }

  lemma ColumnOfSwap(t: Table, b: nat, line: nat, servers: seq<Server>, buckets: nat)
    requires Shaped(t, |t|, buckets) && 0 < line < |t| && b < buckets && t[0][b] !in servers && t[line][b] in servers
    ensures Column(SwapMaster(t, b, line, servers), b) == Column(t, b)[0 := t[line][b]][line := t[line][b].(id := 0)]
    ensures forall k: nat :: k < buckets && k != b ==> Column(SwapMaster(t, b, line, servers), k) == Column(t, k)
    ensures Promoted(Column(t, b), Column(SwapMaster(t, b, line, servers), b), servers, line)
  {
    ColumnsOfPut(t, 0, b, t[line][b], buckets);
    ColumnsOfPut(Put(t, 0, b, t[line][b]), line, b, t[line][b].(id := 0), buckets);
  }

  // ----- the loops over a whole table

  /** The first loop up to bucket b, from table w. */
  ghost predicate RepairedUpTo(w: Table, t: Table, servers: seq<Server>, b: nat, buckets: nat)
    requires |w| > 0 && Shaped(w, |w|, buckets) && Shaped(t, |w|, buckets) && b <= buckets
  {
    && (forall k: nat :: k < b ==> Repaired(Column(w, k), Column(t, k), servers))
    && (forall k: nat :: b <= k < buckets ==> Column(t, k) == Column(w, k))
  }

  /** The second loop, having treated the slots before line l, bucket b in line order. */
  ghost predicate CleanedUpTo(r: Table, t: Table, servers: seq<Server>, line: nat, b: nat, buckets: nat)
    requires Shaped(r, |r|, buckets) && Shaped(t, |r|, buckets)
  {
    forall l, k :: 0 <= l < |r| && 0 <= k < buckets ==>
      t[l][k] == if 1 <= l && (l < line || (l == line && k < b)) then Kept(r[l][k], servers) else r[l][k]
  }

  lemma AllCleaned(w: Table, r: Table, t: Table, servers: seq<Server>, buckets: nat)
    requires |w| > 0 && Shaped(w, |w|, buckets) && Shaped(r, |w|, buckets) && Shaped(t, |w|, buckets)
    requires RepairedUpTo(w, r, servers, buckets, buckets)
    requires CleanedUpTo(r, t, servers, |w|, 0, buckets)
    ensures forall b: nat :: b < buckets ==> QuickColumn(Column(w, b), Column(t, b), servers)
  {
    forall b: nat | b < buckets ensures QuickColumn(Column(w, b), Column(t, b), servers) {
      assert Repaired(Column(w, b), Column(r, b), servers);
      assert Cleaned(Column(r, b), Column(t, b), servers);
    }
  }
}
