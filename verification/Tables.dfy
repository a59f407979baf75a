/** Servers, bucket tables and the counting of table entries (tair/table_builder.hpp). */
module Tables {
  import opened Counting

  /** A server id with its position (rack): the id masked by the configured position mask. */
  datatype Server = Server(id: nat, pos: nat)

  /** table[line][bucket]: line 0 holds the masters, the other lines the further copies. */
  type Table = seq<seq<Server>>

  ghost predicate Shaped(t: Table, copies: nat, buckets: nat) {
    |t| == copies && forall l :: 0 <= l < |t| ==> |t[l]| == buckets
  }

  /** Ids are nonzero and tell servers apart. */
  ghost predicate ProperServers(servers: seq<Server>) {
    && (forall i :: 0 <= i < |servers| ==> servers[i].id != 0)
    && (forall i, j :: 0 <= i < j < |servers| ==> servers[i].id != servers[j].id)
  }

  /** An entry that carries the id of a server is that server: positions are a function of ids. */
  ghost predicate ProperEntry(e: Server, servers: seq<Server>) {
    forall s :: s in servers && s.id == e.id ==> e == s
  }

  ghost predicate ProperTable(t: Table, servers: seq<Server>) {
    forall l, b :: 0 <= l < |t| && 0 <= b < |t[l]| ==> ProperEntry(t[l][b], servers)
  }

  function Column(t: Table, b: nat): (c: seq<Server>)
    requires forall l :: 0 <= l < |t| ==> b < |t[l]|
    ensures |c| == |t|
  {
    seq(|t|, l requires 0 <= l < |t| => t[l][b])
  }

  function Put(t: Table, l: nat, b: nat, e: Server): (t': Table)
    requires l < |t| && b < |t[l]|
    ensures |t'| == |t|
    ensures forall k :: 0 <= k < |t| ==> |t'[k]| == |t[k]|
  {
    t[l := t[l][b := e]]
  }

  lemma ColumnsOfPut(t: Table, l: nat, b: nat, e: Server, buckets: nat)
    requires Shaped(t, |t|, buckets) && l < |t| && b < buckets
    ensures Column(Put(t, l, b, e), b) == Column(t, b)[l := e]
    ensures forall k: nat :: k < buckets && k != b ==> Column(Put(t, l, b, e), k) == Column(t, k)
  {
  }

  lemma PutOver(t: Table, l: nat, b: nat, e: Server, e': Server)
    requires l < |t| && b < |t[l]|
    ensures Put(Put(t, l, b, e), l, b, e') == Put(t, l, b, e')
  {
    assert t[l][b := e][b := e'] == t[l][b := e'];
  }

  /** Occurrences of a server in the whole table. */
  ghost function Total(t: Table, s: Server): nat {
    if t == [] then 0 else multiset(t[0])[s] + Total(t[1..], s)
  }

  ghost function One(b: bool): int { if b then 1 else 0 }

  lemma {:induction false} TotalOfPut(t: Table, l: nat, b: nat, e: Server, s: Server)
    requires l < |t| && b < |t[l]|
    ensures Total(Put(t, l, b, e), s) == Total(t, s) - One(t[l][b] == s) + One(e == s)
  {
    var t' := Put(t, l, b, e);
    if l == 0 {
      assert t'[1..] == t[1..];
      assert multiset(t'[0]) == multiset(t[0]) - multiset{t[0][b]} + multiset{e};
    } else {
      assert t'[1..] == Put(t[1..], l - 1, b, e);
      TotalOfPut(t[1..], l - 1, b, e, s);
    }
  }

  lemma MastersOfPut(t: Table, b: nat, e: Server, servers: seq<Server>)
    requires |t| > 0 && b < |t[0]|
    ensures forall s :: s in servers ==>
              multiset(Put(t, 0, b, e)[0])[s] == multiset(t[0])[s] - One(t[0][b] == s) + One(e == s)
  {
    assert multiset(t[0][b := e]) == multiset(t[0]) - multiset{t[0][b]} + multiset{e};
  }

  // ----- pigeonhole on server ids

  ghost function Ids(q: seq<Server>): (r: set<nat>) {
    set i | 0 <= i < |q| :: q[i].id
  }

  lemma {:induction false} IdsAtMost(q: seq<Server>)
    ensures |Ids(q)| <= |q|
    ensures (forall i, j :: 0 <= i < j < |q| ==> q[i].id != q[j].id) ==> |Ids(q)| == |q|
  {
    if q != [] {
      var k := |q| - 1;
      IdsAtMost(q[..k]);
      assert Ids(q) == Ids(q[..k]) + {q[k].id};
    }
  }

  /** Fewer entries than servers leave some server out. */
  lemma SpareServer(servers: seq<Server>, used: seq<Server>) returns (s: Server)
    requires ProperServers(servers) && |used| < |servers|
    ensures s in servers && forall i :: 0 <= i < |used| ==> used[i].id != s.id
  {
    IdsAtMost(servers);
    IdsAtMost(used);
    if Ids(servers) <= Ids(used) {
      SubsetSize(Ids(servers), Ids(used));
      assert false;
    }
    var id :| id in Ids(servers) && id !in Ids(used);
    var i :| 0 <= i < |servers| && servers[i].id == id;
    s := servers[i];
  }
}
