/** Per-server counters with their two inverse indexes (tair/table_builder.cpp:117-178, 262-276). */
module Tallies {
  import opened Tables

  function Lookup<K>(m: map<K, int>, k: K): int { if k in m then m[k] else 0 }

  function Group(m: map<int, set<Server>>, k: int): set<Server> { if k in m then m[k] else {} }

  /** count: entries held by each server; byCount and bySurplus group the servers by their count
      and by count minus capacity. Empty groups stay in the maps. */
  datatype Tally = Tally(count: map<Server, int>,
                         byCount: map<int, set<Server>>,
                         bySurplus: map<int, set<Server>>)

  function Remove(m: map<int, set<Server>>, k: int, s: Server): map<int, set<Server>> {
    m[k := Group(m, k) - {s}]
  }

  function Add(m: map<int, set<Server>>, k: int, s: Server): map<int, set<Server>> {
    m[k := Group(m, k) + {s}]
  }

  /** change_tokens_count_in_node: move a server one step up or down and re-file it in both indexes. */
  function Bump(t: Tally, s: Server, cap: map<Server, int>, minus: bool): Tally {
    var n := Lookup(t.count, s);
    var n' := if minus then n - 1 else n + 1;
    var c := Lookup(cap, s);
    Tally(t.count[s := n'],
          Add(Remove(t.byCount, n, s), n', s),
          Add(Remove(t.bySurplus, n - c, s), n' - c, s))
  }

  ghost predicate Filed(index: map<int, set<Server>>, count: map<Server, int>, base: map<Server, int>, k: int, s: Server) {
    s in Group(index, k) <==> (s in count && count[s] - Lookup(base, s) == k)
  }

  /** The index groups exactly the counted servers, each under its count minus its base. */
  ghost predicate Files(index: map<int, set<Server>>, count: map<Server, int>, base: map<Server, int>) {
    forall k, s :: Filed(index, count, base, k, s)
  }

  /** The counters range over the given servers, and the indexes are their exact inverses. */
  ghost predicate Indexed(t: Tally, cap: map<Server, int>, servers: seq<Server>) {
    match t
    case Tally(count, byCount, bySurplus) =>
      && (forall s :: s in count <==> s in servers)
      && Files(byCount, count, map[])
      && Files(bySurplus, count, cap)
  }

  /** Re-filing one server keeps an index the exact inverse of its counters. */
  lemma RefileKeepsFiles(index: map<int, set<Server>>, count: map<Server, int>, base: map<Server, int>, s: Server, n: int)
    requires Files(index, count, base) && s in count
    ensures Files(Add(Remove(index, count[s] - Lookup(base, s), s), n - Lookup(base, s), s), count[s := n], base)
  {
    var index' := Add(Remove(index, count[s] - Lookup(base, s), s), n - Lookup(base, s), s);
    var count' := count[s := n];
    forall k, x ensures Filed(index', count', base, k, x) {
      assert Filed(index, count, base, k, x);
    }
  }

  /** Filing a server that was not counted before. */
  lemma FileAnother(index: map<int, set<Server>>, count: map<Server, int>, base: map<Server, int>, s: Server, n: int)
    requires Files(index, count, base) && s !in count
    ensures Files(Add(index, n - Lookup(base, s), s), count[s := n], base)
  {
    var index' := Add(index, n - Lookup(base, s), s);
    var count' := count[s := n];
    forall k, x ensures Filed(index', count', base, k, x) {
      assert Filed(index, count, base, k, x);
    }
  }

  lemma BumpKeepsIndexed(t: Tally, s: Server, cap: map<Server, int>, minus: bool, servers: seq<Server>)
    requires Indexed(t, cap, servers) && s in servers
    ensures Indexed(Bump(t, s, cap, minus), cap, servers)
  {
    var n' := if minus then t.count[s] - 1 else t.count[s] + 1;
    RefileKeepsFiles(t.byCount, t.count, map[], s, n');
    RefileKeepsFiles(t.bySurplus, t.count, cap, s, n');
  }
}
