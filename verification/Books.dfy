/** Keeping the counters true to the table while single entries change. */
module Books {
  import opened Counting
  import opened Tables
  import opened Tallies

  /** The tally of all copies counts exactly the table's entries. */
  ghost predicate CountsCopies(y: Tally, cap: map<Server, int>, servers: seq<Server>, t: Table) {
    Indexed(y, cap, servers) && forall s :: s in servers ==> y.count[s] == Total(t, s)
  }

  /** The tally of masters counts exactly the entries of line 0. */
  ghost predicate CountsMasters(y: Tally, cap: map<Server, int>, servers: seq<Server>, t: Table) {
    Indexed(y, cap, servers) && |t| > 0 && forall s :: s in servers ==> y.count[s] == multiset(t[0])[s]
  }

  /** A tally moved by one entry leaving (if it is a server). */
  function Drop(y: Tally, e: Server, cap: map<Server, int>, servers: seq<Server>): Tally {
    if e in servers then Bump(y, e, cap, true) else y
  }

  lemma DropCounts(y: Tally, e: Server, cap: map<Server, int>, servers: seq<Server>)
    requires Indexed(y, cap, servers)
    ensures Indexed(Drop(y, e, cap, servers), cap, servers)
    ensures forall s :: s in servers ==> Drop(y, e, cap, servers).count[s] == y.count[s] - One(e == s)
  {
    if e in servers { BumpKeepsIndexed(y, e, cap, true, servers); }
  }

  lemma BumpCounts(y: Tally, e: Server, cap: map<Server, int>, servers: seq<Server>)
    requires Indexed(y, cap, servers) && e in servers
    ensures Indexed(Bump(y, e, cap, false), cap, servers)
    ensures forall s :: s in servers ==> Bump(y, e, cap, false).count[s] == y.count[s] + One(e == s)
  {
    BumpKeepsIndexed(y, e, cap, false, servers);
  }

  lemma TotalsOfPut(t: Table, l: nat, b: nat, e: Server, servers: seq<Server>)
    requires l < |t| && b < |t[l]|
    ensures forall s :: s in servers ==> Total(Put(t, l, b, e), s) == Total(t, s) - One(t[l][b] == s) + One(e == s)
  {
    forall s | s in servers
      ensures Total(Put(t, l, b, e), s) == Total(t, s) - One(t[l][b] == s) + One(e == s)
    {
      TotalOfPut(t, l, b, e, s);
    }
  }

  /** The table is proper, and both tallies count it exactly. */
  ghost predicate Ledger(t: Table, copies: Tally, masters: Tally, copyCap: map<Server, int>,
                         masterCap: map<Server, int>, servers: seq<Server>, copyCount: nat, bucketCount: nat) {
    && copyCount >= 1
    && ProperShape(t, servers, copyCount, bucketCount)
    && CountsCopies(copies, copyCap, servers, t)
    && CountsMasters(masters, masterCap, servers, t)
  }

  ghost predicate ProperShape(t: Table, servers: seq<Server>, copyCount: nat, bucketCount: nat) {
    Shaped(t, copyCount, bucketCount) && ProperServers(servers) && ProperTable(t, servers)
  }

  lemma ProperAfterPut(t: Table, servers: seq<Server>, copyCount: nat, bucketCount: nat, l: nat, b: nat, e: Server)
    requires ProperShape(t, servers, copyCount, bucketCount) && l < copyCount && b < bucketCount
    requires e.id == 0 || e in servers
    ensures ProperShape(Put(t, l, b, e), servers, copyCount, bucketCount)
  {
    var t' := Put(t, l, b, e);
    forall k, c | 0 <= k < |t'| && 0 <= c < |t'[k]|
      ensures ProperEntry(t'[k][c], servers)
    {
      assert t'[k][c] == e || t'[k][c] == t[k][c];
    }
  }

  function DropMaster(y: Tally, line: nat, e: Server, cap: map<Server, int>, servers: seq<Server>): Tally {
    if line == 0 then Drop(y, e, cap, servers) else y
  }

  function BumpMaster(y: Tally, line: nat, e: Server, cap: map<Server, int>): Tally {
    if line == 0 then Bump(y, e, cap, false) else y
  }

  /** Clearing one entry's id, with the counters dropped accordingly, keeps the ledger. */
  lemma LedgerAfterDrop(t: Table, copies: Tally, masters: Tally, copyCap: map<Server, int>,
                        masterCap: map<Server, int>, servers: seq<Server>, copyCount: nat, bucketCount: nat,
                        line: nat, b: nat)
    requires Ledger(t, copies, masters, copyCap, masterCap, servers, copyCount, bucketCount)
    requires line < copyCount && b < bucketCount
    ensures Ledger(Put(t, line, b, t[line][b].(id := 0)), Drop(copies, t[line][b], copyCap, servers),
                   DropMaster(masters, line, t[line][b], masterCap, servers),
                   copyCap, masterCap, servers, copyCount, bucketCount)
  {
    var e := t[line][b];
    var z := e.(id := 0);
    ProperAfterPut(t, servers, copyCount, bucketCount, line, b, z);
    assert z !in servers;
    TotalsOfPut(t, line, b, z, servers);
    DropCounts(copies, e, copyCap, servers);
    if line == 0 {
      DropCounts(masters, e, masterCap, servers);
      MastersOfPut(t, b, z, servers);
    }
  }

  /** Storing a server over an entry that is none, with the counters bumped, keeps the ledger. */
  lemma LedgerAfterBump(t: Table, copies: Tally, masters: Tally, copyCap: map<Server, int>,
                        masterCap: map<Server, int>, servers: seq<Server>, copyCount: nat, bucketCount: nat,
                        line: nat, b: nat, s: Server)
    requires Ledger(t, copies, masters, copyCap, masterCap, servers, copyCount, bucketCount)
    requires line < copyCount && b < bucketCount && t[line][b] !in servers && s in servers
    ensures Ledger(Put(t, line, b, s), Bump(copies, s, copyCap, false), BumpMaster(masters, line, s, masterCap),
                   copyCap, masterCap, servers, copyCount, bucketCount)
  {
    ProperAfterPut(t, servers, copyCount, bucketCount, line, b, s);
    TotalsOfPut(t, line, b, s, servers);
    BumpCounts(copies, s, copyCap, servers);
    if line == 0 {
      BumpCounts(masters, s, masterCap, servers);
      MastersOfPut(t, b, s, servers);
    }
  }

  /** What goes back into the slot of the slave that became master: the old master if it is
      available, else the slave's own entry with its id cleared. */
  function SwappedBack(org: Server, chosen: Server, servers: seq<Server>): Server {
    if org in servers then org else chosen.(id := 0)
  }

  function SwapMaster(t: Table, b: nat, line: nat, servers: seq<Server>): Table
    requires 0 < line < |t| && b < |t[0]| && b < |t[line]|
  {
    Put(Put(t, 0, b, t[line][b]), line, b, SwappedBack(t[0][b], t[line][b], servers))
  }

  function SwapTally(y: Tally, org: Server, chosen: Server, cap: map<Server, int>, servers: seq<Server>): Tally {
    Drop(Bump(y, chosen, cap, false), org, cap, servers)
  }

  lemma SwapTallyCounts(y: Tally, org: Server, chosen: Server, cap: map<Server, int>, servers: seq<Server>)
    requires Indexed(y, cap, servers) && chosen in servers
    ensures Indexed(SwapTally(y, org, chosen, cap, servers), cap, servers)
    ensures forall s :: s in servers ==>
              SwapTally(y, org, chosen, cap, servers).count[s] == y.count[s] + One(chosen == s) - One(org == s)
  {
    BumpCounts(y, chosen, cap, servers);
    DropCounts(Bump(y, chosen, cap, false), org, cap, servers);
  }

  /** Promoting a slave and putting the old master in its place moves one master and no copy. */
  lemma SwapCounts(t: Table, b: nat, line: nat, servers: seq<Server>)
    requires 0 < line < |t| && b < |t[0]| && b < |t[line]| && t[line][b] in servers && ProperServers(servers)
    ensures forall s :: s in servers ==> Total(SwapMaster(t, b, line, servers), s) == Total(t, s)
    ensures forall s :: s in servers ==>
              multiset(SwapMaster(t, b, line, servers)[0])[s] == multiset(t[0])[s] + One(t[line][b] == s) - One(t[0][b] == s)
  {
    var t1 := Put(t, 0, b, t[line][b]);
    var back := SwappedBack(t[0][b], t[line][b], servers);
    TotalsOfPut(t, 0, b, t[line][b], servers);
    TotalsOfPut(t1, line, b, back, servers);
    MastersOfPut(t, b, t[line][b], servers);
    assert back in servers ==> back == t[0][b];
    assert t[0][b] in servers ==> back == t[0][b];
  }

  lemma LedgerAfterSwap(t: Table, copies: Tally, masters: Tally, copyCap: map<Server, int>,
                        masterCap: map<Server, int>, servers: seq<Server>, copyCount: nat, bucketCount: nat,
                        b: nat, line: nat)
    requires Ledger(t, copies, masters, copyCap, masterCap, servers, copyCount, bucketCount)
    requires 0 < line < copyCount && b < bucketCount && t[line][b] in servers
    ensures Ledger(SwapMaster(t, b, line, servers), copies,
                   SwapTally(masters, t[0][b], t[line][b], masterCap, servers),
                   copyCap, masterCap, servers, copyCount, bucketCount)
  {
    var chosen := t[line][b];
    ProperAfterPut(t, servers, copyCount, bucketCount, 0, b, chosen);
    ProperAfterPut(Put(t, 0, b, chosen), servers, copyCount, bucketCount, line, b, SwappedBack(t[0][b], chosen, servers));
    SwapCounts(t, b, line, servers);
    SwapTallyCounts(masters, t[0][b], chosen, masterCap, servers);
  }

  lemma LedgerOfParts(t: Table, copies: Tally, masters: Tally, copyCap: map<Server, int>,
                      masterCap: map<Server, int>, servers: seq<Server>, copyCount: nat, bucketCount: nat)
    requires copyCount >= 1 && ProperShape(t, servers, copyCount, bucketCount)
    requires forall s :: s in copies.count <==> s in servers
    requires forall s :: s in masters.count <==> s in servers
    requires forall s :: s in servers ==> copies.count[s] == Total(t, s)
    requires forall s :: s in servers ==> masters.count[s] == multiset(t[0])[s]
    requires Files(copies.byCount, copies.count, map[]) && Files(copies.bySurplus, copies.count, copyCap)
    requires Files(masters.byCount, masters.count, map[]) && Files(masters.bySurplus, masters.count, masterCap)
    ensures Ledger(t, copies, masters, copyCap, masterCap, servers, copyCount, bucketCount)
  {
  }
}
