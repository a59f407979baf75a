/** The test by which fill_migrate_machine decides whether a bucket must migrate (tair/group_info.cpp:73-120). */
module Shortcut {
  import opened Tables
  import opened Passes
  import opened QuickTables

  function IdsOf(c: seq<Server>): (q: seq<nat>)
    ensures |q| == |c| && forall l :: 0 <= l < |c| ==> q[l] == c[l].id
  {
    seq(|c|, l requires 0 <= l < |c| => c[l].id)
  }

  predicate Holds(q: seq<nat>, id: nat) {
    exists k :: 1 <= k < |q| && q[k] == id
  }

  /** The bucket has a master, and the master differs or some new slave is no old slave. */
  predicate Flagged(m: seq<nat>, d: seq<nat>)
    requires |m| == |d| > 0
  {
    m[0] != 0 && (m[0] != d[0] || exists j :: 1 <= j < |d| && !Holds(m, d[j]))
  }

  lemma {:induction false} TooManyIds(q: seq<nat>, ids: set<nat>)
    requires forall i, j :: 0 <= i < j < |q| ==> q[i] != q[j]
    requires forall i :: 0 <= i < |q| ==> q[i] in ids
    ensures |q| <= |ids|
  {
    if q != [] {
      TooManyIds(q[1..], ids - {q[0]});
    }
  }

  lemma {:induction false} FewIds(q: seq<nat>) returns (ids: set<nat>)
    ensures |ids| <= |q| && forall i :: 0 <= i < |q| ==> q[i] in ids
  {
    if q == [] {
      ids := {};
    } else {
      ids := FewIds(q[1..]);
      ids := ids + {q[0]};
    }
  }

  /** A quick column with an empty slave slot cannot hold all slaves of a rebuilt column. */
  lemma EmptySlotIsFlagged(m: seq<nat>, d: seq<nat>, hole: nat)
    requires |m| == |d| && 1 <= hole < |m| && m[hole] == 0
    requires forall l :: 0 <= l < |d| ==> d[l] != 0
    requires forall k, l :: 0 <= k < l < |d| ==> d[k] != d[l]
    ensures exists j :: 1 <= j < |d| && !Holds(m, d[j])
  {
    if forall j :: 1 <= j < |d| ==> Holds(m, d[j]) {
      var rest := m[1..hole] + m[hole + 1..];
      var ids := FewIds(rest);
      forall i | 0 <= i < |d[1..]| ensures d[1..][i] in ids {
        assert Holds(m, d[i + 1]);
        var k :| 1 <= k < |m| && m[k] == d[i + 1];
        assert rest[if k < hole then k - 1 else k - 2] == m[k];
      }
      TooManyIds(d[1..], ids);
      assert false;
    }
  }

  ghost predicate SlaveHas(c: seq<Server>, id: nat) {
    exists k :: 1 <= k < |c| && c[k].id == id
  }

  /** A kept prefix extends to a line whose new server is an old slave. */
  lemma KeptStep(w: seq<Server>, d: seq<Server>, servers: seq<Server>, i: nat)
    requires |w| == |d| && 1 <= i < |d| && ProperServers(servers) && d[i] in servers && w[i] in servers
    requires d[i] == w[i] || ClearOf(d[i], w, i)
    requires SlaveHas(w, d[i].id)
    ensures d[i] == w[i]
  {
    var k :| 1 <= k < |w| && w[k].id == d[i].id;
    if d[i] != w[i] {
      assert k == i;
      SameServer(servers, d[i], w[i]);
    }
  }

  /** If the master was kept and all new slaves are old slaves, the rebuilt column is the source column. */
  lemma {:induction false} KeptColumn(w: seq<Server>, d: seq<Server>, servers: seq<Server>, l: nat)
    requires |w| == |d| && 1 <= l <= |d| && ProperServers(servers)
    requires KeptOrFresh(w, d) && d[0] == w[0]
    requires forall k :: 0 <= k < |w| ==> w[k] in servers && d[k] in servers
    requires forall j :: 1 <= j < |d| ==> SlaveHas(w, d[j].id)
    ensures d[1..l] == w[1..l]
  {
    if l > 1 {
      var i: nat := l - 1;
      KeptColumn(w, d, servers, i);
      KeptStep(w, d, servers, i);
      assert d[1..l] == d[1..i] + [d[i]] && w[1..l] == w[1..i] + [w[i]];
    }
  }

  lemma SameServer(servers: seq<Server>, a: Server, b: Server)
    requires ProperServers(servers) && a in servers && b in servers && a.id == b.id
    ensures a == b
  {
  }

  /** No column is flagged against itself. */
  lemma SameIsNotFlagged(q: seq<nat>)
    requires |q| > 0
    ensures !Flagged(q, q)
  {
    forall j | 1 <= j < |q| ensures Holds(q, q[j]) {}
  }

  /** Against a source column that is wholly available, only an equal rebuilt column goes unflagged. */
  lemma UnflaggedIsSame(w: seq<Server>, d: seq<Server>, servers: seq<Server>)
    requires |w| == |d| > 0 && ProperServers(servers) && Rebuilt(w, d, servers, false)
    requires forall l :: 0 <= l < |w| ==> w[l] in servers
    requires !Flagged(IdsOf(w), IdsOf(d))
    ensures d == w
  {
    SameServer(servers, d[0], w[0]);
    forall j | 1 <= j < |d| ensures SlaveHas(w, d[j].id) {
      assert Holds(IdsOf(w), IdsOf(d)[j]);
      var k :| 1 <= k < |w| && IdsOf(w)[k] == d[j].id;
      assert w[k].id == d[j].id;
    }
    KeptColumn(w, d, servers, |d|);
    assert d == [d[0]] + d[1..|d|] && w == [w[0]] + w[1..|w|];
  }

  lemma LostMasterLeavesHole(w: seq<Server>, r: seq<Server>, m: seq<Server>, servers: seq<Server>) returns (hole: nat)
    requires |w| == |m| > 0 && ProperServers(servers) && HasCopy(w, servers) && w[0] !in servers
    requires Repaired(w, r, servers) && Cleaned(r, m, servers)
    ensures 1 <= hole < |m| && m[hole].id == 0
  {
    hole :| Promoted(w, r, servers, hole);
    assert m[hole] == Kept(r[hole], servers);
  }

  /** A quick column without an empty slot is its source column, all of it available. */
  lemma FullColumn(w: seq<Server>, m: seq<Server>, servers: seq<Server>)
    requires |w| == |m| > 0 && ProperServers(servers) && HasCopy(w, servers) && QuickColumn(w, m, servers)
    requires forall l :: 1 <= l < |m| ==> m[l].id != 0
    ensures m == w && forall l :: 0 <= l < |w| ==> w[l] in servers
  {
    var r :| Repaired(w, r, servers) && Cleaned(r, m, servers);
    if w[0] !in servers {
      var hole := LostMasterLeavesHole(w, r, m, servers);
    }
    forall l | 0 <= l < |w| ensures m[l] == w[l] && w[l] in servers {
      if l > 0 { assert m[l] == Kept(r[l], servers); }
    }
  }

  /** The test is exact: for a quick column m and a rebuilt column d of the same source column w, it flags
      the bucket if and only if the two columns differ anywhere. */
  lemma ShortcutExact(w: seq<Server>, m: seq<Server>, d: seq<Server>, servers: seq<Server>)
    requires |w| == |m| == |d| > 0 && ProperServers(servers) && HasCopy(w, servers)
    requires QuickColumn(w, m, servers) && Rebuilt(w, d, servers, false)
    ensures Flagged(IdsOf(m), IdsOf(d)) <==> IdsOf(m) != IdsOf(d)
  {
    var mi, di := IdsOf(m), IdsOf(d);
    QuickConserves(w, m, servers);
    if mi == di {
      SameIsNotFlagged(mi);
    } else if hole: nat :| 1 <= hole < |m| && m[hole].id == 0 {
      EmptySlotIsFlagged(mi, di, hole);
    } else {
      FullColumn(w, m, servers);
      if !Flagged(mi, di) { UnflaggedIsSame(w, d, servers); }
    }
  }

  predicate Known(id: nat, servers: seq<Server>) {
    exists i :: 0 <= i < |servers| && servers[i].id == id
  }

  /** The column that group_info::rebuild installs in m: the quick column q (the source column itself if there
      is but one copy), or d's where the master was lost beyond repair. */
  function Installed(q: seq<Server>, d: seq<Server>, servers: seq<Server>, allowLoss: bool): seq<nat>
    requires |q| == |d| > 0
  {
    if (|q| == 1 || allowLoss) && !Known(q[0].id, servers) then IdsOf(d) else IdsOf(q)
  }

  lemma InstalledIsRight(w: seq<Server>, q: seq<Server>, d: seq<Server>, servers: seq<Server>, allowLoss: bool)
    requires |w| == |q| == |d| > 0 && ProperServers(servers) && ProperEntry(w[0], servers)
    requires Rebuilt(w, d, servers, false)
    requires if |w| == 1 then q == w else QuickColumn(w, q, servers) && (allowLoss || HasCopy(w, servers))
    ensures var m := Installed(q, d, servers, allowLoss);
            |m| == |d| && m[0] != 0 && (Flagged(m, IdsOf(d)) <==> m != IdsOf(d))
  {
    var m := Installed(q, d, servers, allowLoss);
    assert d[0] in servers;
    if |w| > 1 && !HasCopy(w, servers) { LostForGood(w, q, servers); }
    if m == IdsOf(d) {
      SameIsNotFlagged(m);
    } else if |w| > 1 {
      QuickConserves(w, q, servers);
      ShortcutExact(w, q, d, servers);
    }
  }

  lemma LostForGood(w: seq<Server>, q: seq<Server>, servers: seq<Server>)
    requires |w| > 0 && QuickColumn(w, q, servers) && !HasCopy(w, servers) && ProperEntry(w[0], servers)
    ensures |q| > 0 && !Known(q[0].id, servers)
  {
    assert w[0] !in servers;
  }
}
