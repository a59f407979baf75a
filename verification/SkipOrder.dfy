/** What the links of a skip list say about one sequence of nodes (netfram/TSKipList.h): on every level a node points to the
    next node of the sequence that reaches that level. */
module SkipOrder {

  /** A node by number: 0 is the head, -1 the null pointer, nodes of the list are positive. */
  type Id = int
  const HEAD: Id := 0
  const NULL: Id := -1
  const MAX_LVL: nat := 10

  type Links = map<(nat, Id), Id>

  function Next(next: Links, i: nat, x: Id): Id { if (i, x) in next then next[(i, x)] else NULL }

  function Height(height: map<Id, nat>, x: Id): nat { if x in height then height[x] else 0 }

  function Key(key: map<Id, int>, x: Id): int { if x in key then key[x] else 0 }

  /** The node before place k. */
  function At(s: seq<Id>, k: nat): Id
    requires k <= |s|
  {
    if k == 0 then HEAD else s[k - 1]
  }

  /** The first node from place k on that reaches above level i. */
  function FirstFrom(s: seq<Id>, height: map<Id, nat>, i: nat, k: nat): Id
    requires k <= |s|
    decreases |s| - k
  {
    if k == |s| then NULL else if Height(height, s[k]) > i then s[k] else FirstFrom(s, height, i, k + 1)
  }

  ghost predicate NoneUp(s: seq<Id>, height: map<Id, nat>, i: nat, k: nat, m: nat)
    requires k <= m <= |s|
  {
    forall j: nat :: k <= j < m ==> Height(height, s[j]) <= i
  }

  /** Nodes are real and different. */
  ghost predicate Nodes(s: seq<Id>) {
    (forall j: nat :: j < |s| ==> s[j] > 0) && forall j: nat, k: nat :: j < k < |s| ==> s[j] != s[k]
  }

  ghost predicate Reaches(s: seq<Id>, height: map<Id, nat>, i: nat, k: nat)
    requires k <= |s|
  {
    k == 0 || Height(height, s[k - 1]) > i
  }

  /** Every level is the sublist of the nodes that reach it. */
  ghost predicate Linked(next: Links, height: map<Id, nat>, s: seq<Id>) {
    forall i: nat, k: nat :: i < MAX_LVL && k <= |s| && Reaches(s, height, i, k) ==> Next(next, i, At(s, k)) == FirstFrom(s, height, i, k)
  }

  lemma {:induction false} FirstIndex(s: seq<Id>, height: map<Id, nat>, i: nat, k: nat) returns (j: nat)
    requires k <= |s|
    ensures k <= j <= |s| && NoneUp(s, height, i, k, j)
    ensures FirstFrom(s, height, i, k) == if j == |s| then NULL else s[j]
    ensures j < |s| ==> Height(height, s[j]) > i
    decreases |s| - k
  {
    if k == |s| || Height(height, s[k]) > i {
      j := k;
    } else {
      j := FirstIndex(s, height, i, k + 1);
    }
  }

  lemma {:induction false} FirstSkips(s: seq<Id>, height: map<Id, nat>, i: nat, k: nat, m: nat)
    requires k <= m <= |s| && NoneUp(s, height, i, k, m)
    ensures FirstFrom(s, height, i, k) == FirstFrom(s, height, i, m)
    decreases m - k
  {
    if k < m { FirstSkips(s, height, i, k + 1, m); }
  }

  /** Only the heights and nodes from place k on matter. */
  lemma {:induction false} FirstOfSuffix(s: seq<Id>, height: map<Id, nat>, t: seq<Id>, height': map<Id, nat>, i: nat, k: nat, m: nat)
    requires k <= |s| && m <= |t| && |s| - k == |t| - m
    requires forall j: nat :: k <= j < |s| ==> s[j] == t[j - k + m] && Height(height, s[j]) == Height(height', s[j])
    ensures FirstFrom(s, height, i, k) == FirstFrom(t, height', i, m)
    decreases |s| - k
  {
    if k < |s| {
      assert s[k] == t[k - k + m];
      FirstOfSuffix(s, height, t, height', i, k + 1, m + 1);
    }
  }

  /** A node found before place c is found again when only what comes from c on is changed. */
  lemma {:induction false} FirstOfPrefix(s: seq<Id>, height: map<Id, nat>, t: seq<Id>, height': map<Id, nat>, i: nat, k: nat, c: nat)
    requires k < c <= |s| && c <= |t| && Height(height, s[c - 1]) > i
    requires forall j: nat :: j < c ==> s[j] == t[j] && Height(height, s[j]) == Height(height', s[j])
    ensures FirstFrom(s, height, i, k) == FirstFrom(t, height', i, k)
    decreases c - k
  {
    if Height(height, s[k]) <= i { FirstOfPrefix(s, height, t, height', i, k + 1, c); }
  }

  /** The last place not after m whose node reaches above level i. */
  function PredIndex(s: seq<Id>, height: map<Id, nat>, i: nat, m: nat): (k: nat)
    requires m <= |s|
    ensures k <= m && Reaches(s, height, i, k) && NoneUp(s, height, i, k, m)
  {
    if m == 0 || Height(height, s[m - 1]) > i then m else PredIndex(s, height, i, m - 1)
  }

  lemma PredIs(s: seq<Id>, height: map<Id, nat>, i: nat, m: nat, k: nat)
    requires k <= m <= |s| && Reaches(s, height, i, k) && NoneUp(s, height, i, k, m)
    ensures PredIndex(s, height, i, m) == k
  {
    var p := PredIndex(s, height, i, m);
    assert p == 0 || Height(height, s[p - 1]) > i;
  }

  /** The nodes after which something is to change at place m, level by level. */
  ghost predicate Preds(s: seq<Id>, height: map<Id, nat>, u: seq<Id>, n: nat, m: nat)
    requires m <= |s|
  {
    n <= |u| && forall i: nat :: i < n ==> u[i] == At(s, PredIndex(s, height, i, m))
  }

  // ----- splicing a node in

  /** x linked in after u[i] on the first n levels. */
  ghost function Spliced(next: Links, u: seq<Id>, x: Id, n: nat): Links
    requires n <= |u|
  {
    if n == 0 then next
    else
      var m := Spliced(next, u, x, n - 1);
      m[(n - 1, x) := Next(m, n - 1, u[n - 1])][(n - 1, u[n - 1]) := x]
  }

  lemma {:induction false} SplicedAt(next: Links, u: seq<Id>, x: Id, n: nat, i: nat, y: Id)
    requires n <= |u| && forall j: nat :: j < n ==> u[j] != x
    ensures Next(Spliced(next, u, x, n), i, y) ==
            if i >= n then Next(next, i, y) else if y == u[i] then x else if y == x then Next(next, i, u[i]) else Next(next, i, y)
  {
    if n > 0 {
      SplicedAt(next, u, x, n - 1, i, y);
      SplicedAt(next, u, x, n - 1, n - 1, u[n - 1]);
    }
  }

  /** s with x at place m. */
  function InsertAt(s: seq<Id>, m: nat, x: Id): seq<Id>
    requires m <= |s|
  {
    s[..m] + [x] + s[m..]
  }

  lemma InsertedAre(s: seq<Id>, height: map<Id, nat>, m: nat, x: Id, h: nat)
    requires m <= |s| && x !in s
    ensures var t, height' := InsertAt(s, m, x), height[x := h];
      && |t| == |s| + 1 && t[m] == x && Height(height', x) == h
      && (forall j: nat :: j < m ==> s[j] == t[j] && Height(height, s[j]) == Height(height', s[j]))
      && (forall j: nat :: m <= j < |s| ==> s[j] == t[j - m + (m + 1)] && Height(height, s[j]) == Height(height', s[j]))
  {
  }

  /** What is first from a place before m, with x at m. */
  lemma FirstInserted(s: seq<Id>, height: map<Id, nat>, m: nat, x: Id, h: nat, i: nat, k: nat)
    requires m <= |s| && x !in s && k <= m
    ensures var c := PredIndex(s, height, i, m);
      FirstFrom(InsertAt(s, m, x), height[x := h], i, k) ==
      if k < c then FirstFrom(s, height, i, k) else if h > i then x else FirstFrom(s, height, i, k)
  {
    var t, height', c := InsertAt(s, m, x), height[x := h], PredIndex(s, height, i, m);
    InsertedAre(s, height, m, x, h);
    if k < c {
      FirstOfPrefix(s, height, t, height', i, k, c);
    } else {
      assert NoneUp(t, height', i, k, m);
      FirstSkips(t, height', i, k, m);
      FirstSkips(s, height, i, k, m);
      FirstOfSuffix(s, height, t, height', i, m, m + 1);
    }
  }

  lemma FirstBeyond(s: seq<Id>, height: map<Id, nat>, m: nat, x: Id, h: nat, i: nat, k: nat)
    requires m <= k <= |s| && x !in s
    ensures FirstFrom(InsertAt(s, m, x), height[x := h], i, k + 1) == FirstFrom(s, height, i, k)
  {
    InsertedAre(s, height, m, x, h);
    FirstOfSuffix(s, height, InsertAt(s, m, x), height[x := h], i, k, k + 1);
  }

  /** Links from the places up to m. */
  lemma SpliceBefore(next: Links, height: map<Id, nat>, s: seq<Id>, m: nat, x: Id, h: nat, u: seq<Id>, i: nat, k: nat)
    requires Nodes(s) && Linked(next, height, s) && m <= |s| && x > 0 && x !in s && i < MAX_LVL && k <= m
    requires Preds(s, height, u, h, m) && Reaches(s, height, i, k)
    ensures Next(Spliced(next, u, x, h), i, At(s, k)) == FirstFrom(InsertAt(s, m, x), height[x := h], i, k)
  {
    var c := PredIndex(s, height, i, m);
    UApart(s, height, u, h, m, x);
    SplicedAt(next, u, x, h, i, At(s, k));
    FirstInserted(s, height, m, x, h, i, k);
    assert Next(next, i, At(s, k)) == FirstFrom(s, height, i, k);
    if k < c {
      AtNot(s, k, c);
    } else {
      NotAfterPred(s, height, i, m, k);
    }
  }

  lemma NotAfterPred(s: seq<Id>, height: map<Id, nat>, i: nat, m: nat, k: nat)
    requires m <= |s| && PredIndex(s, height, i, m) <= k <= m && Reaches(s, height, i, k)
    ensures k == PredIndex(s, height, i, m)
  {
    assert k == 0 || Height(height, s[k - 1]) > i;
  }

  lemma AtNot(s: seq<Id>, k: nat, m: nat)
    requires Nodes(s) && k < m <= |s|
    ensures At(s, k) != At(s, m)
  {
  }

  lemma UApart(s: seq<Id>, height: map<Id, nat>, u: seq<Id>, n: nat, m: nat, x: Id)
    requires m <= |s| && Preds(s, height, u, n, m) && x > 0 && x !in s
    ensures forall j: nat :: j < n ==> u[j] != x
  {
  }

  /** Links from x and from the places after it. */
  lemma SpliceAfter(next: Links, height: map<Id, nat>, s: seq<Id>, m: nat, x: Id, h: nat, u: seq<Id>, i: nat, k: nat)
    requires Nodes(s) && Linked(next, height, s) && m <= |s| && x > 0 && x !in s && i < MAX_LVL && m <= k <= |s|
    requires Preds(s, height, u, h, m) && (if k == m then i < h else Reaches(s, height, i, k))
    ensures Next(Spliced(next, u, x, h), i, if k == m then x else At(s, k)) == FirstFrom(InsertAt(s, m, x), height[x := h], i, k + 1)
  {
    var c := PredIndex(s, height, i, m);
    UApart(s, height, u, h, m, x);
    FirstBeyond(s, height, m, x, h, i, k);
    if k == m {
      SplicedAt(next, u, x, h, i, x);
      assert Next(next, i, At(s, c)) == FirstFrom(s, height, i, c);
      FirstSkips(s, height, i, c, m);
    } else {
      AtNot(s, c, k);
      SplicedAt(next, u, x, h, i, At(s, k));
      assert Next(next, i, At(s, k)) == FirstFrom(s, height, i, k);
    }
  }

  /** Splicing a node in at place m makes the links of the longer sequence. */
  lemma SpliceLinks(next: Links, height: map<Id, nat>, s: seq<Id>, m: nat, x: Id, h: nat, u: seq<Id>)
    requires Nodes(s) && Linked(next, height, s) && m <= |s| && x > 0 && x !in s && Preds(s, height, u, h, m)
    ensures Linked(Spliced(next, u, x, h), height[x := h], InsertAt(s, m, x))
  {
    var t, height' := InsertAt(s, m, x), height[x := h];
    forall i: nat, k: nat | i < MAX_LVL && k <= |t| && Reaches(t, height', i, k)
      ensures Next(Spliced(next, u, x, h), i, At(t, k)) == FirstFrom(t, height', i, k)
    {
      if k <= m {
        assert k > 0 ==> t[k - 1] == s[k - 1] && s[k - 1] != x;
        assert At(t, k) == At(s, k);
        SpliceBefore(next, height, s, m, x, h, u, i, k);
      } else {
        assert At(t, k) == if k - 1 == m then x else At(s, k - 1);
        InsertedAre(s, height, m, x, h);
        assert k - 1 > m ==> Height(height, s[k - 2]) == Height(height', s[k - 2]);
        SpliceAfter(next, height, s, m, x, h, u, i, k - 1);
      }
    }
  }

  // ----- taking a node out

  /** x bypassed on the levels lo..n where it follows u[i]. */
  ghost function Bypassed(next: Links, u: seq<Id>, x: Id, lo: nat, n: nat): Links
    requires lo <= n <= |u|
    decreases n - lo
  {
    if lo == n then next
    else
      var m := Bypassed(next, u, x, lo + 1, n);
      if Next(m, lo, u[lo]) == x then m[(lo, u[lo]) := Next(m, lo, x)] else m
  }

  lemma {:induction false} BypassedAt(next: Links, u: seq<Id>, x: Id, lo: nat, n: nat, i: nat, y: Id)
    requires lo <= n <= |u| && forall j: nat :: j < n ==> u[j] != x
    ensures Next(Bypassed(next, u, x, lo, n), i, y) ==
            if lo <= i < n && y == u[i] && Next(next, i, y) == x then Next(next, i, x) else Next(next, i, y)
    decreases n - lo
  {
    if lo < n {
      BypassedAt(next, u, x, lo + 1, n, i, y);
      BypassedAt(next, u, x, lo + 1, n, lo, u[lo]);
      BypassedAt(next, u, x, lo + 1, n, lo, x);
    }
  }

  lemma SamePred(s: seq<Id>, height: map<Id, nat>, m: nat, x: Id, i: nat)
    requires m <= |s| && x !in s
    ensures PredIndex(InsertAt(s, m, x), height, i, m) == PredIndex(s, height, i, m)
  {
    var t, c := InsertAt(s, m, x), PredIndex(s, height, i, m);
    assert forall j: nat :: j < m ==> t[j] == s[j];
    PredIs(t, height, i, m, c);
  }

  lemma HeightKept(height: map<Id, nat>, x: Id)
    requires Height(height, x) > 0
    ensures height[x := Height(height, x)] == height
  {
  }

  lemma BypassLinksAt(next: Links, height: map<Id, nat>, s: seq<Id>, m: nat, x: Id, u: seq<Id>, n: nat, i: nat, k: nat)
    requires m <= |s| && x > 0 && x !in s && Nodes(InsertAt(s, m, x)) && Linked(next, height, InsertAt(s, m, x)) && Nodes(s)
    requires Preds(InsertAt(s, m, x), height, u, n, m) && 0 < Height(height, x) <= n
    requires i < MAX_LVL && k <= |s| && Reaches(s, height, i, k)
    ensures Next(Bypassed(next, u, x, 0, n), i, At(s, k)) == FirstFrom(s, height, i, k)
  {
    var t, h, c := InsertAt(s, m, x), Height(height, x), PredIndex(s, height, i, m);
    HeightKept(height, x);
    InsertedAre(s, height, m, x, h);
    SamePred(s, height, m, x, i);
    BypassApart(s, height, m, x, u, n);
    BypassedAt(next, u, x, 0, n, i, At(s, k));
    if k <= m {
      assert At(t, k) == At(s, k) && Reaches(t, height, i, k);
      FirstInserted(s, height, m, x, h, i, k);
      if k < c {
        AtNot(t, k, c);
      } else {
        NotAfterPred(s, height, i, m, k);
        FirstIsNot(s, height, i, k, x);
        if h > i {
          assert At(t, m + 1) == x && Reaches(t, height, i, m + 1);
          FirstBeyond(s, height, m, x, h, i, m);
          FirstSkips(s, height, i, k, m);
        }
      }
    } else {
      assert At(t, k + 1) == At(s, k) && Reaches(t, height, i, k + 1);
      FirstBeyond(s, height, m, x, h, i, k);
      AtNot(t, c, k + 1);
    }
  }

  lemma BypassApart(s: seq<Id>, height: map<Id, nat>, m: nat, x: Id, u: seq<Id>, n: nat)
    requires m <= |s| && x > 0 && x !in s && Preds(InsertAt(s, m, x), height, u, n, m)
    ensures forall j: nat :: j < n ==> u[j] != x
  {
    var t := InsertAt(s, m, x);
    forall j: nat | j < n ensures u[j] != x {
      var c := PredIndex(t, height, j, m);
      assert c > 0 ==> At(t, c) == s[c - 1];
    }
  }

  lemma FirstIsNot(s: seq<Id>, height: map<Id, nat>, i: nat, k: nat, x: Id)
    requires k <= |s| && x !in s && x > 0
    ensures FirstFrom(s, height, i, k) != x
  {
    var j := FirstIndex(s, height, i, k);
  }

  /** Bypassing the node at place m leaves the links of the shorter sequence, whatever becomes of the node's own link. */
  lemma BypassLinks(next: Links, height: map<Id, nat>, s: seq<Id>, m: nat, x: Id, u: seq<Id>, n: nat)
    requires m <= |s| && x > 0 && x !in s && Nodes(InsertAt(s, m, x)) && Linked(next, height, InsertAt(s, m, x)) && Nodes(s)
    requires Preds(InsertAt(s, m, x), height, u, n, m) && 0 < Height(height, x) <= n
    ensures Linked(Bypassed(next, u, x, 0, n)[(0, x) := NULL], height, s)
  {
    forall i: nat, k: nat | i < MAX_LVL && k <= |s| && Reaches(s, height, i, k)
      ensures Next(Bypassed(next, u, x, 0, n)[(0, x) := NULL], i, At(s, k)) == FirstFrom(s, height, i, k)
    {
      BypassLinksAt(next, height, s, m, x, u, n, i, k);
      assert At(s, k) != x;
    }
  }

  // ----- cutting the tail off

  ghost function Cut(next: Links, u: seq<Id>, lo: nat, n: nat): Links
    requires lo <= n <= |u|
    decreases n - lo
  {
    if lo == n then next else Cut(next, u, lo + 1, n)[(lo, u[lo]) := NULL]
  }

  lemma {:induction false} CutAt(next: Links, u: seq<Id>, lo: nat, n: nat, i: nat, y: Id)
    requires lo <= n <= |u|
    ensures Next(Cut(next, u, lo, n), i, y) == if lo <= i < n && y == u[i] then NULL else Next(next, i, y)
    decreases n - lo
  {
    if lo < n { CutAt(next, u, lo + 1, n, i, y); }
  }

  ghost predicate HeightsAtMost(s: seq<Id>, height: map<Id, nat>, n: nat) {
    forall j: nat :: j < |s| ==> 0 < Height(height, s[j]) <= n
  }

  lemma CutLinks(next: Links, height: map<Id, nat>, s: seq<Id>, m: nat, u: seq<Id>, n: nat)
    requires Nodes(s) && Linked(next, height, s) && m <= |s| && Preds(s, height, u, n, m) && HeightsAtMost(s, height, n)
    ensures Linked(Cut(next, u, 0, n), height, s[..m])
  {
    forall i: nat, k: nat | i < MAX_LVL && k <= m && Reaches(s[..m], height, i, k)
      ensures Next(Cut(next, u, 0, n), i, At(s[..m], k)) == FirstFrom(s[..m], height, i, k)
    {
      CutLinksAt(next, height, s, m, u, n, i, k);
    }
  }

  lemma CutLinksAt(next: Links, height: map<Id, nat>, s: seq<Id>, m: nat, u: seq<Id>, n: nat, i: nat, k: nat)
    requires Nodes(s) && Linked(next, height, s) && m <= |s| && Preds(s, height, u, n, m) && HeightsAtMost(s, height, n)
    requires i < MAX_LVL && k <= m && Reaches(s[..m], height, i, k)
    ensures Next(Cut(next, u, 0, n), i, At(s[..m], k)) == FirstFrom(s[..m], height, i, k)
  {
    var t, c := s[..m], PredIndex(s, height, i, m);
    assert At(t, k) == At(s, k) && Reaches(s, height, i, k);
    CutAt(next, u, 0, n, i, At(s, k));
    if k < c {
      AtNot(s, k, c);
      FirstOfPrefix(s, height, t, height, i, k, c);
    } else {
      NotAfterPred(s, height, i, m, k);
      assert NoneUp(t, height, i, k, m);
      FirstSkips(t, height, i, k, m);
      if i >= n { FirstSkips(s, height, i, k, |s|); }
    }
  }
}
