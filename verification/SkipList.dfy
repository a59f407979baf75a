/** The skip list of netfram/TSKipList.h, as a refinement of a sequence of nodes in descending order of their keys. */
module SkipLists {
  import opened SkipOrder

  ghost predicate Descending(key: map<Id, int>, s: seq<Id>) {
    forall j: nat, k: nat :: j < k < |s| ==> Key(key, s[j]) >= Key(key, s[k])
  }

  /** How many nodes at the front have keys above k. */
  function Split(key: map<Id, int>, s: seq<Id>, k: int): (m: nat)
    ensures m <= |s|
  {
    if s == [] || Key(key, s[0]) <= k then 0 else 1 + Split(key, s[1..], k)
  }

  lemma {:induction false} SplitIs(key: map<Id, int>, s: seq<Id>, k: int)
    requires Descending(key, s)
    ensures forall j: nat :: j < |s| ==> (Key(key, s[j]) > k <==> j < Split(key, s, k))
  {
    if s != [] && Key(key, s[0]) > k {
      assert forall j: nat :: j < |s[1..]| ==> s[1..][j] == s[j + 1];
      SplitIs(key, s[1..], k);
      forall j: nat | j < |s| ensures Key(key, s[j]) > k <==> j < Split(key, s, k) {
        if j > 0 { assert s[j] == s[1..][j - 1]; }
      }
    }
  }

  function Back(s: seq<Id>, j: nat): Id
    requires j < |s|
  {
    if j == 0 then NULL else s[j - 1]
  }

  function Prev(prev: map<Id, Id>, x: Id): Id { if x in prev then prev[x] else NULL }

  ghost predicate Prevs(prev: map<Id, Id>, s: seq<Id>) {
    forall j: nat {:trigger Back(s, j)} :: j < |s| ==> Prev(prev, s[j]) == Back(s, j)
  }

  function TailOf(s: seq<Id>): Id { if s == [] then NULL else s[|s| - 1] }

  // ----- the sequence with a node more

  lemma InsertPlaces(s: seq<Id>, m: nat, x: Id, j: nat)
    requires m <= |s| && j <= |s|
    ensures InsertAt(s, m, x)[j] == if j < m then s[j] else if j == m then x else s[j - 1]
  {
  }

  lemma InsertNodes(s: seq<Id>, m: nat, x: Id)
    requires Nodes(s) && m <= |s| && x > 0 && x !in s
    ensures Nodes(InsertAt(s, m, x))
  {
    var t := InsertAt(s, m, x);
    forall j: nat | j < |t| ensures t[j] > 0 { InsertPlaces(s, m, x, j); }
    forall a: nat, b: nat | a < b < |t| ensures t[a] != t[b] {
      InsertPlaces(s, m, x, a);
      InsertPlaces(s, m, x, b);
    }
  }

  lemma InsertDescending(key: map<Id, int>, s: seq<Id>, x: Id, k: int)
    requires Descending(key, s) && x !in s
    ensures Descending(key[x := k], InsertAt(s, Split(key, s, k), x))
  {
    SplitIs(key, s, k);
    InsertDescendingAt(key, s, x, k, Split(key, s, k));
  }

  lemma InsertDescendingAt(key: map<Id, int>, s: seq<Id>, x: Id, k: int, m: nat)
    requires Descending(key, s) && x !in s && m <= |s|
    requires forall j: nat :: j < |s| ==> (Key(key, s[j]) > k <==> j < m)
    ensures Descending(key[x := k], InsertAt(s, m, x))
  {
    var key', t := key[x := k], InsertAt(s, m, x);
    forall a: nat, b: nat | a < b < |t| ensures Key(key', t[a]) >= Key(key', t[b]) {
      InsertPlaces(s, m, x, a);
      InsertPlaces(s, m, x, b);
    }
  }

  lemma InsertHeights(height: map<Id, nat>, s: seq<Id>, m: nat, x: Id, h: nat, n: nat)
    requires HeightsAtMost(s, height, n) && m <= |s| && x !in s && h > 0
    ensures HeightsAtMost(InsertAt(s, m, x), height[x := h], if h > n then h else n)
  {
    forall j: nat | j <= |s| ensures 0 < Height(height[x := h], InsertAt(s, m, x)[j]) <= if h > n then h else n {
      InsertPlaces(s, m, x, j);
    }
  }

  lemma InsertPrevs(prev: map<Id, Id>, s: seq<Id>, m: nat, x: Id)
    requires Prevs(prev, s) && Nodes(s) && m <= |s| && x > 0 && x !in s
    ensures var p := prev[x := if m == 0 then NULL else s[m - 1]];
            Prevs(if m < |s| then p[s[m] := x] else p, InsertAt(s, m, x))
  {
    var p, t := prev[x := if m == 0 then NULL else s[m - 1]], InsertAt(s, m, x);
    var p' := if m < |s| then p[s[m] := x] else p;
    forall j: nat | j < |t| ensures Prev(p', t[j]) == Back(t, j) {
      InsertPlaces(s, m, x, j);
      if j > 0 { InsertPlaces(s, m, x, j - 1); }
      if j < m { assert Prev(prev, s[j]) == Back(s, j); }
      if j > m { assert Prev(prev, s[j - 1]) == Back(s, j - 1); }
    }
  }

  // ----- the sequence with a node less, or without its end

  /** s without the node at place m. */
  function RemoveAt(s: seq<Id>, m: nat): seq<Id>
    requires m < |s|
  {
    s[..m] + s[m + 1..]
  }

  lemma RemovePlaces(s: seq<Id>, m: nat, j: nat)
    requires m < |s| && j < |s| - 1
    ensures RemoveAt(s, m)[j] == s[if j < m then j else j + 1]
  {
  }

  lemma RemoveKeeps(key: map<Id, int>, height: map<Id, nat>, s: seq<Id>, m: nat, n: nat)
    requires Nodes(s) && Descending(key, s) && HeightsAtMost(s, height, n) && m < |s|
    ensures Nodes(RemoveAt(s, m)) && Descending(key, RemoveAt(s, m)) && HeightsAtMost(RemoveAt(s, m), height, n)
  {
    var t := RemoveAt(s, m);
    forall j: nat | j < |t| ensures t[j] > 0 && 0 < Height(height, t[j]) <= n { RemovePlaces(s, m, j); }
    forall a: nat, b: nat | a < b < |t| ensures t[a] != t[b] && Key(key, t[a]) >= Key(key, t[b]) {
      RemovePlaces(s, m, a);
      RemovePlaces(s, m, b);
    }
  }

  lemma RemoveInserts(s: seq<Id>, m: nat)
    requires Nodes(s) && m < |s|
    ensures s[m] !in RemoveAt(s, m) && InsertAt(RemoveAt(s, m), m, s[m]) == s
  {
    var t := RemoveAt(s, m);
    forall j: nat | j < |t| ensures t[j] != s[m] { RemovePlaces(s, m, j); }
    assert t[..m] == s[..m] && t[m..] == s[m + 1..];
  }

  lemma RemovePrevs(prev: map<Id, Id>, s: seq<Id>, m: nat)
    requires Prevs(prev, s) && Nodes(s) && m < |s|
    ensures Prevs(if m + 1 < |s| then prev[s[m + 1] := Back(s, m)] else prev, RemoveAt(s, m))
  {
    var t, p := RemoveAt(s, m), if m + 1 < |s| then prev[s[m + 1] := Back(s, m)] else prev;
    forall j: nat | j < |t| ensures Prev(p, t[j]) == Back(t, j) {
      RemovePlaces(s, m, j);
      if j > 0 { RemovePlaces(s, m, j - 1); }
      if j < m { assert Prev(prev, s[j]) == Back(s, j); }
      if j > m { assert Prev(prev, s[j + 1]) == Back(s, j + 1); }
    }
  }

  lemma CutKeeps(key: map<Id, int>, height: map<Id, nat>, prev: map<Id, Id>, s: seq<Id>, m: nat, n: nat)
    requires Nodes(s) && Descending(key, s) && HeightsAtMost(s, height, n) && Prevs(prev, s) && m <= |s|
    ensures Nodes(s[..m]) && Descending(key, s[..m]) && HeightsAtMost(s[..m], height, n) && Prevs(prev, s[..m])
  {
    forall j: nat | j < m ensures Prev(prev, s[..m][j]) == Back(s[..m], j) {
      assert Prev(prev, s[j]) == Back(s, j);
    }
  }

  // ----- reading the lowest and the highest level

  /** On level 0 the node before place m points to the node at place m. */
  lemma LevelZero(next: Links, height: map<Id, nat>, s: seq<Id>, n: nat, m: nat)
    requires Linked(next, height, s) && HeightsAtMost(s, height, n) && m <= |s|
    ensures Next(next, 0, At(s, m)) == if m == |s| then NULL else s[m]
  {
    assert Reaches(s, height, 0, m);
    assert m < |s| ==> Height(height, s[m]) > 0;
  }

  lemma LevelEmpty(next: Links, height: map<Id, nat>, s: seq<Id>, n: nat)
    requires Linked(next, height, s) && 1 < n <= MAX_LVL && HeightsAtMost(s, height, n) && Next(next, n - 1, HEAD) == NULL && Nodes(s)
    ensures HeightsAtMost(s, height, n - 1)
  {
    assert Reaches(s, height, n - 1, 0) && At(s, 0) == HEAD;
    var j := FirstIndex(s, height, n - 1, 0);
    assert forall k: nat :: k < |s| ==> s[k] != NULL;
    forall k: nat | k < |s| ensures 0 < Height(height, s[k]) <= n - 1 { assert Height(height, s[k]) <= n - 1; }
  }

  /** Above the highest level everything is behind the head. */
  lemma HeadAbove(s: seq<Id>, height: map<Id, nat>, u: seq<Id>, n: nat, h: nat, m: nat)
    requires m <= |s| && n <= h == |u| && HeightsAtMost(s, height, n) && Preds(s, height, u, n, m)
    requires forall i: nat :: n <= i < h ==> u[i] == HEAD
    ensures Preds(s, height, u, h, m)
  {
    forall i: nat | n <= i < h ensures u[i] == At(s, PredIndex(s, height, i, m)) { PredIs(s, height, i, m, 0); }
  }

  lemma InsertEnds(next: Links, height: map<Id, nat>, s: seq<Id>, m: nat, x: Id)
    requires m <= |s| && Linked(next, height, InsertAt(s, m, x)) && Height(height, x) > 0
    requires forall j: nat :: j < |s| ==> Height(height, s[j]) > 0
    ensures Next(next, 0, x) == if m == |s| then NULL else s[m]
    ensures TailOf(InsertAt(s, m, x)) == if m == |s| then x else TailOf(s)
  {
    var t := InsertAt(s, m, x);
    assert t[m] == x && At(t, m + 1) == x && Reaches(t, height, 0, m + 1);
    assert m < |s| ==> t[m + 1] == s[m];
  }

  // ----- the whole state of a list

  datatype List = List(next: Links, prev: map<Id, Id>, height: map<Id, nat>, key: map<Id, int>,
                       tail: Id, level: nat, length: int, order: seq<Id>)

  /** Every level is the sublist of the order that reaches it, and nothing reaches above `level`. */
  ghost predicate Ok(l: List) {
    match l
    case List(next, prev, height, key, tail, level, length, order) =>
      && Nodes(order) && Descending(key, order)
      && Linked(next, height, order) && Prevs(prev, order) && tail == TailOf(order)
      && 0 < level <= MAX_LVL && HeightsAtMost(order, height, level) && length == |order|
  }

  function Max(a: nat, b: nat): nat { if a > b then a else b }

  /** The links back after x has been put between node and y. */
  function LinkedBack(prev: map<Id, Id>, x: Id, node: Id, y: Id): map<Id, Id> {
    var p := prev[x := if node == HEAD then NULL else node];
    if y != NULL then p[y := x] else p
  }

  ghost function Inserted(l: List, x: Id, k: int, h: nat, u: seq<Id>): List
    requires h <= |u|
  {
    var m := Split(l.key, l.order, k);
    var next := Spliced(l.next, u, x, h);
    var y := Next(next, 0, x);
    List(next, LinkedBack(l.prev, x, At(l.order, m), y), l.height[x := h], l.key[x := k],
         if y == NULL then x else l.tail, Max(h, l.level), l.length + 1, InsertAt(l.order, m, x))
  }

  lemma InsertedOk(l: List, x: Id, k: int, h: nat, u: seq<Id>)
    requires Ok(l) && x > 0 && x !in l.order && 0 < h <= MAX_LVL && Preds(l.order, l.height, u, h, Split(l.key, l.order, k))
    ensures Ok(Inserted(l, x, k, h, u))
  {
    var s, m := l.order, Split(l.key, l.order, k);
    SpliceLinks(l.next, l.height, s, m, x, h, u);
    InsertNodes(s, m, x);
    InsertDescending(l.key, s, x, k);
    InsertHeights(l.height, s, m, x, h, l.level);
    InsertEnds(Spliced(l.next, u, x, h), l.height[x := h], s, m, x);
    InsertedBack(l.prev, s, m, x);
  }

  lemma InsertedBack(prev: map<Id, Id>, s: seq<Id>, m: nat, x: Id)
    requires Prevs(prev, s) && Nodes(s) && m <= |s| && x > 0 && x !in s
    ensures Prevs(LinkedBack(prev, x, At(s, m), if m == |s| then NULL else s[m]), InsertAt(s, m, x))
  {
    InsertPrevs(prev, s, m, x);
    assert m > 0 ==> s[m - 1] > 0;
    assert m < |s| ==> s[m] > 0;
  }

  lemma HigherOk(l: List, h: nat)
    requires Ok(l) && l.level <= h <= MAX_LVL
    ensures Ok(l.(level := h))
  {
  }

  lemma LowerOk(l: List)
    requires Ok(l) && l.level > 1 && Next(l.next, l.level - 1, HEAD) == NULL
    ensures Ok(l.(level := l.level - 1))
  {
    LevelEmpty(l.next, l.height, l.order, l.level);
  }

  function Follower(c: seq<Id>, j: nat): Id
    requires j < |c|
  {
    if j + 1 < |c| then c[j + 1] else NULL
  }

  /** Nodes linked on level 0, one after the other, to the end. */
  ghost predicate Chain(next: Links, c: seq<Id>) {
    forall j: nat {:trigger Follower(c, j)} :: j < |c| ==> c[j] != NULL && Next(next, 0, c[j]) == Follower(c, j)
  }

  ghost function Removed(l: List, m: nat, u: seq<Id>): List
    requires m < |l.order| && l.level <= |u|
  {
    var x := l.order[m];
    var next := Bypassed(l.next, u, x, 0, l.level);
    var y := Next(next, 0, x);
    l.(next := next[(0, x) := NULL], prev := if y != NULL then l.prev[y := Prev(l.prev, x)] else l.prev,
       tail := if y != NULL then l.tail else Prev(l.prev, x), length := l.length - 1, order := RemoveAt(l.order, m))
  }

  lemma RemovedOk(l: List, m: nat, u: seq<Id>)
    requires Ok(l) && m < |l.order| && Preds(l.order, l.height, u, l.level, m)
    ensures Ok(Removed(l, m, u))
  {
    var s, x, t := l.order, l.order[m], RemoveAt(l.order, m);
    RemoveKeeps(l.key, l.height, s, m, l.level);
    RemoveInserts(s, m);
    BypassLinks(l.next, l.height, t, m, x, u, l.level);
    RemovedNext(l, m, u);
    RemovePrevs(l.prev, s, m);
    assert Prev(l.prev, s[m]) == Back(s, m);
    assert m + 1 < |s| ==> s[m + 1] > 0;
    RemovedTail(s, m);
  }

  lemma RemovedNext(l: List, m: nat, u: seq<Id>)
    requires Ok(l) && m < |l.order| && Preds(l.order, l.height, u, l.level, m)
    ensures Next(Bypassed(l.next, u, l.order[m], 0, l.level), 0, l.order[m]) == if m + 1 < |l.order| then l.order[m + 1] else NULL
  {
    var x := l.order[m];
    RemoveInserts(l.order, m);
    BypassApart(RemoveAt(l.order, m), l.height, m, x, u, l.level);
    BypassedAt(l.next, u, x, 0, l.level, 0, x);
    LevelZero(l.next, l.height, l.order, l.level, m + 1);
    assert At(l.order, m + 1) == x;
  }

  lemma RemovedTail(s: seq<Id>, m: nat)
    requires m < |s|
    ensures TailOf(RemoveAt(s, m)) == if m + 1 < |s| then TailOf(s) else Back(s, m)
  {
  }

  ghost function CutList(l: List, m: nat, u: seq<Id>): List
    requires m < |l.order| && l.level <= |u|
  {
    l.(next := Cut(l.next, u, 0, l.level), tail := Back(l.order, m), length := m, order := l.order[..m])
  }

  lemma CutOk(l: List, m: nat, u: seq<Id>)
    requires Ok(l) && m < |l.order| && Preds(l.order, l.height, u, l.level, m)
    ensures Ok(CutList(l, m, u)) && Prev(l.prev, l.order[m]) == Back(l.order, m)
  {
    CutLinks(l.next, l.height, l.order, m, u, l.level);
    CutKeeps(l.key, l.height, l.prev, l.order, m, l.level);
  }

  /** What is cut off stays linked. */
  lemma CutChain(l: List, m: nat, u: seq<Id>)
    requires Ok(l) && m < |l.order| && Preds(l.order, l.height, u, l.level, m)
    ensures Chain(Cut(l.next, u, 0, l.level), l.order[m..])
  {
    var s, c := l.order, l.order[m..];
    forall j: nat | j < |c|
      ensures c[j] != NULL && Next(Cut(l.next, u, 0, l.level), 0, c[j]) == Follower(c, j)
    {
      assert At(s, m + j + 1) == s[m + j] == c[j] && s[m + j] > 0;
      LevelZero(l.next, l.height, s, l.level, m + j + 1);
      CutAt(l.next, u, 0, l.level, 0, c[j]);
      AtNot(s, PredIndex(s, l.height, 0, m), m + j + 1);
    }
  }

  class SkipList {
    var next: Links
    var prev: map<Id, Id>
    var height: map<Id, nat>
    var key: map<Id, int>
    var tail: Id
    var level: nat
    var length: int
    ghost var order: seq<Id>

    ghost function State(): List
      reads this
    {
      List(next, prev, height, key, tail, level, length, order)
    }

    ghost predicate Valid()
      reads this
    {
      Ok(State())
    }

    constructor ()
      ensures Valid() && order == []
    {
      next, prev, height, key := map[], map[], map[], map[];
      tail, level, length := NULL, 1, 0;
      order := [];
      new;
      assert forall i: nat :: FirstFrom([], height, i, 0) == NULL;
    }

    /** The search that Insert, Find and FindLE make: level by level, on while the next key is above k. */
    method Search(k: int, from: Id, ghost at: nat) returns (node: Id, update: seq<Id>)
      requires Valid() && at <= Split(key, order, k) && from == At(order, at)
      requires at == 0 || Height(height, order[at - 1]) == level
      ensures |update| == level && node == At(order, Split(key, order, k)) && Preds(order, height, update, level, Split(key, order, k))
    {
      ghost var m, c := Split(key, order, k), at;
      node, update := from, seq(level, _ => HEAD);
      for i := level downto 0
        invariant |update| == level && c <= m && node == At(order, c)
        invariant c == 0 || Height(height, order[c - 1]) >= i
        invariant i == 0 ==> c == m
        invariant forall j: nat :: i <= j < level ==> update[j] == At(order, PredIndex(order, height, j, m))
      {
        node, c := Advance(k, i, node, c);
        update := update[i := node];
        PredIs(order, height, i, m, c);
      }
    }

    /** The inner loop of the search, on level i. */
    method Advance(k: int, i: nat, from: Id, ghost at: nat) returns (node: Id, ghost c: nat)
      requires Valid() && i < level && at <= Split(key, order, k) && from == At(order, at) && Reaches(order, height, i, at)
      ensures at <= c <= Split(key, order, k) && node == At(order, c) && Reaches(order, height, i, c)
      ensures NoneUp(order, height, i, c, Split(key, order, k)) && (i == 0 ==> c == Split(key, order, k))
    {
      ghost var m := Split(key, order, k);
      SplitIs(key, order, k);
      node, c := from, at;
      ghost var j := FirstIndex(order, height, i, c);
      while Next(next, i, node) != NULL && Key(key, Next(next, i, node)) > k
        invariant at <= c <= m && node == At(order, c) && Reaches(order, height, i, c)
        invariant c <= j <= |order| && NoneUp(order, height, i, c, j) && (j < |order| ==> Height(height, order[j]) > i)
        invariant Next(next, i, node) == if j == |order| then NULL else order[j]
        decreases m - c
      {
        node, c := Next(next, i, node), j + 1;
        j := FirstIndex(order, height, i, c);
      }
      assert j >= m;
      assert c < m ==> Height(height, order[c]) > 0;
    }

    /** A new node goes before the nodes whose keys are not above its own. */
    method Insert(x: Id, k: int, h: nat)
      requires Valid() && x > 0 && x !in order && 0 < h <= MAX_LVL
      modifies this
      ensures Valid() && order == InsertAt(old(order), Split(old(key), old(order), k), x)
      ensures key == old(key)[x := k] && height == old(height)[x := h]
    {
      var node, update := FindPlace(k, h);
      InsertedOk(State(), x, k, h, update);
      Enter(x, k, h, node, update);
    }

    /** The rest of Insert, after the search. */
    method Enter(x: Id, k: int, h: nat, node: Id, update: seq<Id>)
      requires h <= |update| && h <= level && node == At(order, Split(key, order, k))
      modifies this
      ensures State() == Inserted(old(State()), x, k, h, update)
    {
      ghost var m := Split(key, order, k);
      Splice(update, x, h);
      prev := prev[x := if node == HEAD then NULL else node];
      if Next(next, 0, x) != NULL {
        prev := prev[Next(next, 0, x) := x];
      } else {
        tail := x;
      }
      length := length + 1;
      height, key := height[x := h], key[x := k];
      order := InsertAt(order, m, x);
    }

    /** The beginning of Insert: search, and open new levels at the head. */
    method FindPlace(k: int, h: nat) returns (node: Id, update: seq<Id>)
      requires Valid() && 0 < h <= MAX_LVL
      modifies this`level
      ensures Valid() && level == Max(h, old(level)) && node == At(order, Split(key, order, k))
      ensures Preds(order, height, update, h, Split(key, order, k))
    {
      node, update := Search(k, HEAD, 0);
      if h > level {
        update := update + seq(h - level, _ => HEAD);
        HeadAbove(order, height, update, level, h, Split(key, order, k));
        HigherOk(State(), h);
        level := h;
      }
    }

    /** The linking loop of Insert. */
    method Splice(update: seq<Id>, x: Id, h: nat)
      requires h <= |update|
      modifies this`next
      ensures next == Spliced(old(next), update, x, h)
    {
      for i := 0 to h
        invariant next == Spliced(old(next), update, x, i)
      {
        next := next[(i, x) := Next(next, i, update[i])];
        next := next[(i, update[i]) := x];
      }
    }

    /** The first node with key k, if there is one. */
    method Find(k: int) returns (r: Id)
      requires Valid()
      ensures r == NULL <==> forall j: nat :: j < |order| ==> Key(key, order[j]) != k
      ensures r != NULL ==> Split(key, order, k) < |order| && r == order[Split(key, order, k)] && Key(key, r) == k
    {
      var node, update := Search(k, HEAD, 0);
      r := Hit(k, node);
    }

    /** The node after `node`, if its key is k. */
    method Hit(k: int, node: Id) returns (r: Id)
      requires Valid() && node == At(order, Split(key, order, k))
      ensures r == NULL <==> forall j: nat :: j < |order| ==> Key(key, order[j]) != k
      ensures r != NULL ==> Split(key, order, k) < |order| && r == order[Split(key, order, k)] && Key(key, r) == k
    {
      SplitIs(key, order, k);
      LevelZero(next, height, order, level, Split(key, order, k));
      if Next(next, 0, node) != NULL && Key(key, Next(next, 0, node)) == k {
        r := Next(next, 0, node);
      } else {
        r := NULL;
      }
    }

    /** FIXLEVEL: drop the levels that nothing reaches. */
    method FixLevel()
      requires Valid()
      modifies this`level
      ensures Valid() && (level == 1 || Next(next, level - 1, HEAD) != NULL)
    {
      while level > 1 && Next(next, level - 1, HEAD) == NULL
        invariant Valid() && level > 0
      {
        LowerOk(State());
        level := level - 1;
      }
    }

    /** FIXLENGTH: count a chain of nodes off. */
    method FixLength(first: Id, ghost c: seq<Id>)
      requires Chain(next, c) && c != [] && first == c[0]
      modifies this`length
      ensures length == old(length) - |c|
    {
      var temp := first;
      ghost var j: nat := 0;
      assert c[0] != NULL by { assert Next(next, 0, c[0]) == Follower(c, 0); }
      while temp != NULL
        invariant j <= |c| && (if j < |c| then temp == c[j] && temp != NULL else temp == NULL) && length == old(length) - j
        decreases |c| - j
      {
        assert Next(next, 0, c[j]) == Follower(c, j);
        if j + 1 < |c| { assert Next(next, 0, c[j + 1]) == Follower(c, j + 1); }
        temp := Next(next, 0, temp);
        length := length - 1;
        j := j + 1;
      }
    }

    /** Take out the first node with key k. */
    method Delete(k: int) returns (r: Id)
      requires Valid()
      modifies this
      ensures Valid() && key == old(key) && height == old(height)
      ensures r == NULL <==> forall j: nat :: j < |old(order)| ==> Key(key, old(order)[j]) != k
      ensures r == NULL ==> State() == old(State())
      ensures r != NULL ==> var m := Split(key, old(order), k);
        && m < |old(order)| && r == old(order)[m] && Key(key, r) == k && order == RemoveAt(old(order), m)
        && (level == 1 || Next(next, level - 1, HEAD) != NULL)
    {
      if length == 0 {
        return NULL;
      }
      var node, update := Search(k, HEAD, 0);
      r := Hit(k, node);
      if r != NULL {
        RemovedOk(State(), Split(key, order, k), update);
        Bypass(r, update, Split(key, order, k));
        FixLevel();
      }
    }

    /** The linking part of Delete. */
    method Bypass(r: Id, update: seq<Id>, ghost m: nat)
      requires m < |order| && r == order[m] && |update| == level && r != NULL
      modifies this`next, this`prev, this`tail, this`length, this`order
      ensures State() == Removed(old(State()), m, update)
    {
      for i := level downto 0
        invariant next == Bypassed(old(next), update, r, i, level)
        invariant prev == old(prev) && tail == old(tail) && length == old(length) && order == old(order)
      {
        if Next(next, i, update[i]) == r {
          next := next[(i, update[i]) := Next(next, i, r)];
        }
      }
      if Next(next, 0, r) != NULL {
        prev := prev[Next(next, 0, r) := Prev(prev, r)];
      } else {
        tail := Prev(prev, r);
      }
      next := next[(0, r) := NULL];
      assert Follower([r], 0) == NULL;
      FixLength(r, [r]);
      order := RemoveAt(order, m);
    }

    /** The last node with a key above k that reaches the highest level, found from the tail; or the head. */
    method StepBack(k: int) returns (node: Id, ghost at: nat)
      requires Valid() && order != []
      ensures at <= Split(key, order, k) && node == At(order, at)
      ensures node == HEAD || (Key(key, node) > k && Height(height, node) == level)
      ensures at == 0 || Height(height, order[at - 1]) == level
    {
      SplitIs(key, order, k);
      node, at := tail, |order|;
      while Key(key, node) <= k || Height(height, node) != level
        invariant 0 < at <= |order| && node == order[at - 1]
        decreases at
      {
        assert Prev(prev, order[at - 1]) == Back(order, at - 1);
        node, at := Prev(prev, node), at - 1;
        if node == NULL {
          assert at > 0 ==> order[at - 1] > 0;
          return HEAD, at;
        }
      }
    }

    /** Take out every node whose key is not above k, searching from the tail; the nodes taken out stay linked from r. */
    method DeleteLE(k: int) returns (r: Id)
      requires Valid()
      modifies this
      ensures Valid() && key == old(key) && height == old(height)
      ensures order == old(order)[..Split(key, old(order), k)]
      ensures r == (if Split(key, old(order), k) == |old(order)| then NULL else old(order)[Split(key, old(order), k)])
      ensures r != NULL ==> Chain(next, old(order)[Split(key, old(order), k)..])
      ensures r != NULL ==> level == 1 || Next(next, level - 1, HEAD) != NULL
    {
      SplitIs(key, order, k);
      assert order[..|order|] == order;
      if length == 0 {
        return NULL;
      }
      if tail == NULL || Key(key, tail) > k {
        return NULL;
      }
      var from; ghost var at;
      from, at := StepBack(k);
      var node, update := Search(k, from, at);
      ghost var m := Split(key, order, k);
      LevelZero(next, height, order, level, m);
      r := Next(next, 0, node);
      CutOk(State(), m, update);
      CutChain(State(), m, update);
      CutOff(r, update, m);
      FixLevel();
    }

    /** The cutting part of DeleteLE. */
    method CutOff(r: Id, update: seq<Id>, ghost m: nat)
      requires m < |order| && r == order[m] && |update| == level && Chain(Cut(next, update, 0, level), order[m..])
      requires length == |order| && Prev(prev, r) == Back(order, m)
      modifies this`next, this`tail, this`length, this`order
      ensures State() == CutList(old(State()), m, update)
    {
      for i := level downto 0
        invariant next == Cut(old(next), update, i, level)
        invariant tail == old(tail) && length == old(length) && order == old(order)
      {
        next := next[(i, update[i]) := NULL];
      }
      tail := Prev(prev, r);
      FixLength(r, order[m..]);
      order := order[..m];
    }
  }
}
