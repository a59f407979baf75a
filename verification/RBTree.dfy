/** The red-black tree of timer events (netfram/RBTree.h): its nodes' links, colours and keys are kept in maps from node
    numbers, which the methods update in place. */
module RBTrees {
  import opened Counting
  import opened RBShape
  import opened RBColor
  import opened RBDelete
  import opened RBSubst

  const HALF: int := 0x8000_0000

  /** (IKey)(a - b): the low 32 bits, as a signed number. */
  function Diff(a: int, b: int): int {
    var m := (a - b) % (2 * HALF);
    if m >= HALF then m - 2 * HALF else m
  }

  lemma DiffIs(a: int, b: int)
    requires -HALF <= a - b < HALF
    ensures Diff(a, b) == a - b
  {
  }

  // ----- sequences of nodes in key order

  function Key(key: map<Id, int>, x: Id): int { Get(key, x, 0) }

  predicate Sorted(key: map<Id, int>, s: seq<Id>) {
    forall i, j :: 0 <= i < j < |s| ==> Key(key, s[i]) <= Key(key, s[j])
  }

  /** x after all that are not greater. */
  function SortedInsert(key: map<Id, int>, s: seq<Id>, x: Id): seq<Id> {
    if s == [] || Key(key, x) < Key(key, s[0]) then [x] + s else [s[0]] + SortedInsert(key, s[1..], x)
  }

  predicate AllBelow(key: map<Id, int>, s: seq<Id>, x: Id) { forall i :: 0 <= i < |s| ==> Key(key, s[i]) <= Key(key, x) }

  predicate AllAbove(key: map<Id, int>, s: seq<Id>, x: Id) { forall i :: 0 <= i < |s| ==> Key(key, x) < Key(key, s[i]) }

  lemma {:induction false} InsertBetween(key: map<Id, int>, a: seq<Id>, b: seq<Id>, x: Id)
    requires AllBelow(key, a, x) && AllAbove(key, b, x)
    ensures SortedInsert(key, a + b, x) == a + [x] + b
  {
    if a == [] {
      assert a + b == b;
    } else {
      assert (a + b)[0] == a[0] && (a + b)[1..] == a[1..] + b;
      InsertBetween(key, a[1..], b, x);
    }
  }

  /** The result is sorted ... */
  lemma {:induction false} InsertKeepsSorted(key: map<Id, int>, s: seq<Id>, x: Id)
    requires Sorted(key, s)
    ensures Sorted(key, SortedInsert(key, s, x))
    ensures SortedInsert(key, s, x)[0] == x || (s != [] && SortedInsert(key, s, x)[0] == s[0])
  {
    if s != [] && Key(key, x) >= Key(key, s[0]) {
      assert Sorted(key, s[1..]);
      InsertKeepsSorted(key, s[1..], x);
      FirstLeast(key, s[0], SortedInsert(key, s[1..], x));
    } else {
      FirstLeast(key, x, s);
    }
  }

  /** ... and has just the one element more. */
  lemma {:induction false} InsertAddsOne(key: map<Id, int>, s: seq<Id>, x: Id)
    ensures multiset(SortedInsert(key, s, x)) == multiset(s) + multiset{x}
  {
    if s != [] && Key(key, x) >= Key(key, s[0]) {
      InsertAddsOne(key, s[1..], x);
      assert s == [s[0]] + s[1..];
    }
  }

  lemma FirstLeast(key: map<Id, int>, x: Id, t: seq<Id>)
    requires Sorted(key, t) && (t != [] ==> Key(key, x) <= Key(key, t[0]))
    ensures Sorted(key, [x] + t)
  {
  }

  // ----- descending to the place of a new node

  /** Everything before the focus is not above x, everything after it is. */
  predicate Brackets(key: map<Id, int>, p: Path, x: Id) { AllBelow(key, Before(p), x) && AllAbove(key, After(p), x) }

  lemma SortedParts(key: map<Id, int>, l: Tree, y: Id, c: bool, r: Tree, p: Path)
    requires Sorted(key, Inorder(Plug(Node(l, y, c, r), p)))
    ensures AllBelow(key, Inorder(l), y) && forall i :: 0 <= i < |Inorder(r)| ==> Key(key, y) <= Key(key, Inorder(r)[i])
  {
    PlugInorder(Node(l, y, c, r), p);
    SortedMiddle(key, Before(p), Inorder(l), y, Inorder(r), After(p));
  }

  lemma SortedMiddle(key: map<Id, int>, a: seq<Id>, b: seq<Id>, y: Id, c: seq<Id>, d: seq<Id>)
    requires Sorted(key, a + (b + [y] + c) + d)
    ensures AllBelow(key, b, y) && forall i :: 0 <= i < |c| ==> Key(key, y) <= Key(key, c[i])
  {
    var s, m, k := a + (b + [y] + c) + d, |a|, |a| + |b|;
    assert s[k] == y;
    forall i | 0 <= i < |b| ensures Key(key, b[i]) <= Key(key, y) { assert s[m + i] == b[i]; }
    forall i | 0 <= i < |c| ensures Key(key, y) <= Key(key, c[i]) { assert s[k + 1 + i] == c[i]; }
  }

  /** One step down, to the side where x belongs. */
  function StepDown(t: Tree, p: Path, d: bool): (Tree, Path)
    requires t.Node?
  {
    if d then (t.left, Up(true, t.id, t.red, t.right, p)) else (t.right, Up(false, t.id, t.red, t.left, p))
  }

  lemma StepDownGood(h: Heap, t: Tree, p: Path, d: bool)
    requires t.Node? && Good(h, t, p)
    ensures var (t', p') := StepDown(t, p, d);
      && Good(h, t', p') && Plug(t', p') == Plug(t, p) && RootOf(t') == (if d then h.Left(t.id) else h.Right(t.id))
      && t.id in Ids(Plug(t, p))
  {
    GoodUp(h, t.left, true, t.id, t.red, t.right, p);
    GoodUp(h, t.right, false, t.id, t.red, t.left, p);
    ZipTop(t, p);
    assert t.id in Ids(t);
  }

  lemma StepDownBrackets(key: map<Id, int>, t: Tree, p: Path, x: Id)
    requires t.Node? && Sorted(key, Inorder(Plug(t, p))) && Brackets(key, p, x)
    ensures Brackets(key, StepDown(t, p, Key(key, x) < Key(key, t.id)).1, x)
  {
    SortedParts(key, t.left, t.id, t.red, t.right, p);
  }

  // ----- hanging a node below the path

  /** x made the child of y on side d, red and without children. */
  function Attached(h: Heap, d: bool, y: Id, x: Id): Heap {
    h.SetKid(d, y, x).SetParent(x, y).SetKid(true, x, NIL).SetKid(false, x, NIL).Paint(x, true)
  }

  lemma AttachRep(h: Heap, p: Path, x: Id)
    requires p.Up? && Good(h, Leaf, p) && x > 0 && x !in PathIds(p)
    ensures Good(Attached(h, p.toLeft, p.id, x), Node(Leaf, x, true, Leaf), p)
  {
    var h' := Attached(h, p.toLeft, p.id, x);
    AttachSame(h, p.toLeft, p.id, x, PathIds(p.up) + Ids(p.sibling));
    assert p.id in PathIds(p);
    AttachLinks(h, p.toLeft, p.id, x);
    Refocus(h, h', p, NIL, x);
    assert Holds(h', Leaf) && RootOf(Leaf) == NIL;
    assert Holds(h', Node(Leaf, x, true, Leaf));
  }

  lemma AttachLinks(h: Heap, d: bool, y: Id, x: Id)
    requires x != y
    ensures var h' := Attached(h, d, y, x);
      && h'.root == h.root && h'.Kid(d, y) == x && h'.Kid(!d, y) == h.Kid(!d, y) && h'.Red(y) == h.Red(y)
      && h'.Parent(y) == h.Parent(y) && h'.Parent(x) == y && h'.Left(x) == NIL == h'.Right(x) && h'.Red(x)
      && forall z :: z != x ==> h'.Red(z) == h.Red(z)
  {
  }

  lemma AttachSame(h: Heap, d: bool, y: Id, x: Id, ids: set<Id>)
    requires x !in ids && y !in ids
    ensures Same(h, Attached(h, d, y, x), ids, NIL)
  {
  }

  // ----- repairing after an insertion

  /** In the repair loop: only the focus may be a red node below a red one; the order is the final one. */
  ghost predicate Fixing(h: Heap, t: Tree, p: Path, order: seq<Id>) {
    Good(h, t, p) && Inserting(t, p) && Inorder(Plug(t, p)) == order && !h.Red(NIL)
  }

  /** The focus after the red uncle's recolouring: two steps up. */
  ghost function TwoStepsUp(t: Tree, p: Path): (Tree, Path)
    requires p.Up? && p.up.Up? && p.up.sibling.Node?
  {
    var u := p.up.sibling;
    (Join(p.up.toLeft, Join(p.toLeft, t, p.id, false, p.sibling), p.up.id, true, Node(u.left, u.id, false, u.right)), p.up.up)
  }

  lemma UncleRed(h: Heap, t: Tree, p: Path, order: seq<Id>)
    requires Fixing(h, t, p, order) && p.Up? && p.red && p.up.Up? && RedRoot(p.up.sibling)
    ensures var (t', p') := TwoStepsUp(t, p);
            Fixing(h.Paint(p.id, false).Paint(p.up.sibling.id, false).Paint(p.up.id, true), t', p', order)
  {
    var u := p.up.sibling;
    AboveRed(t, p);
    RecolourUp(h, t, p.toLeft, p.id, p.sibling, p.up.toLeft, p.up.id, u.left, u.id, u.right, p.up.up);
    RecolourKeeps(t, p.toLeft, p.id, p.sibling, p.up.toLeft, p.up.id, u.left, u.id, u.right, p.up.up);
    PathPositive(h, t, p);
  }

  lemma ReadAbove2(h: Heap, t: Tree, p: Path)
    requires Good(h, t, p) && t.Node? && p.Up? && p.up.Up? && !h.Red(NIL)
    ensures h.Parent(p.id) == p.up.id && (h.Left(p.up.id) == p.id <==> p.up.toLeft)
    ensures h.Kid(!p.up.toLeft, p.up.id) == RootOf(p.up.sibling) && h.Red(RootOf(p.up.sibling)) == RedRoot(p.up.sibling)
  {
    GoodUp(h, t, p.toLeft, p.id, p.red, p.sibling, p.up);
    ReadAbove(h, Join(p.toLeft, t, p.id, p.red, p.sibling), p.up);
  }

  lemma PathPositive(h: Heap, t: Tree, p: Path)
    requires Good(h, t, p) && p.Up?
    ensures p.id > 0 && (p.up.Up? ==> p.up.id > 0 && (p.up.sibling.Node? ==> p.up.sibling.id > 0))
  {
    assert ProperPath(p.up);
  }

  /** The focus after an inner one has been turned outward. */
  ghost function Outward(t: Tree, p: Path): (Tree, Path)
    requires t.Node? && p.Up? && p.up.Up?
  {
    var e := p.up.toLeft;
    var (a, b) := if e then (t.left, t.right) else (t.right, t.left);
    (Join(e, p.sibling, p.id, true, a), Up(e, t.id, true, b, p.up))
  }

  lemma InnerFocus(h: Heap, t: Tree, p: Path, order: seq<Id>)
    requires Fixing(h, t, p, order) && p.Up? && p.red && p.up.Up? && p.toLeft != p.up.toLeft
    ensures CanRotate(h, p.up.toLeft, p.id)
    ensures var (t', p') := Outward(t, p); Fixing(Rotated(h, p.up.toLeft, p.id), t', p', order) && t'.id == p.id
  {
    var e := p.up.toLeft;
    var (a, b) := if e then (t.left, t.right) else (t.right, t.left);
    assert t == Join(e, a, t.id, true, b) && p == Up(!e, p.id, true, p.sibling, p.up);
    TurnOutward(h, e, a, t.id, b, p.id, p.sibling, p.up);
    TurnKeeps(e, a, t.id, b, p.id, p.sibling, p.up);
    RotatedReds(h, e, p.id);
  }

  lemma RotatedReds(h: Heap, d: bool, x: Id)
    requires CanRotate(h, d, x)
    ensures Rotated(h, d, x).red == h.red
  {
    var y := h.Kid(!d, x);
    RotatedParents(h, d, x, y, h.Kid(d, y), h.Parent(x), x);
  }

  /** The path after the last rotation. */
  ghost function Settled(p: Path): Path
    requires p.Up? && p.up.Up?
  {
    Up(p.toLeft, p.id, false, Join(p.toLeft, p.sibling, p.up.id, true, p.up.sibling), p.up.up)
  }

  lemma OuterFocus(h: Heap, t: Tree, p: Path, order: seq<Id>)
    requires Fixing(h, t, p, order) && p.Up? && p.red && p.up.Up? && p.toLeft == p.up.toLeft && !RedRoot(p.up.sibling)
    ensures var h1 := h.Paint(p.id, false).Paint(p.up.id, true);
            CanRotate(h1, !p.toLeft, p.up.id) && Fixing(Rotated(h1, !p.toLeft, p.up.id), t, Settled(p), order)
  {
    AboveRed(t, p);
    RotateDown(h, p.toLeft, t, p.id, p.sibling, p.up.id, p.up.sibling, p.up.up);
    RotateDownKeeps(p.toLeft, t, p.id, p.sibling, p.up.id, p.up.sibling, p.up.up);
    RotatedReds(h.Paint(p.id, false).Paint(p.up.id, true), !p.toLeft, p.up.id);
    PathPositive(h, t, p);
  }

  /** When the loop stops, blackening the root makes a red-black tree. */
  lemma BlackenedIs(t: Tree)
    requires Even(t) && t.Node? && Calm(t.left) && Calm(t.right)
    ensures RedBlack(Blackened(t)) && Inorder(Blackened(t)) == Inorder(t)
  {
  }

  lemma Fixed(h: Heap, t: Tree, p: Path, order: seq<Id>)
    requires Fixing(h, t, p, order) && (p.Up? ==> !p.red)
    ensures var whole := Blackened(Plug(t, p));
      Good(h.Paint(h.root, false), whole, Top) && RedBlack(whole) && Inorder(whole) == order && h.root > 0
  {
    var w := Plug(t, p);
    GoodTop(h, t, p);
    PlugColor(t, p);
    PlugIsNode(t, p);
    BlackenedIs(w);
    PaintFocus(h, true, w.left, w.id, w.red, w.right, Top, false);
  }

  lemma {:induction false} PlugIsNode(t: Tree, p: Path)
    requires t.Node?
    ensures Plug(t, p).Node?
    decreases p
  {
    if p.Up? { PlugIsNode(Join(p.toLeft, t, p.id, p.red, p.sibling), p.up); }
  }

  /** s' is s with x put in somewhere. */
  ghost predicate InsertedIn(s: seq<Id>, s': seq<Id>, x: Id) {
    exists k: nat :: k <= |s| && s' == s[..k] + [x] + s[k..]
  }

  /** The repair loop starts with a sound tree and a new red leaf in it. */
  lemma StartFixing(h: Heap, tree: Tree, p: Path, x: Id)
    requires Plug(Leaf, p) == tree && RedBlack(tree) && !h.Red(NIL) && Good(h, Node(Leaf, x, true, Leaf), p)
    ensures Fixing(h, Node(Leaf, x, true, Leaf), p, Before(p) + [x] + After(p))
  {
    Unplug(Leaf, p);
    PlugInorder(Node(Leaf, x, true, Leaf), p);
    assert Inorder(Node(Leaf, x, true, Leaf)) == [x];
  }

  lemma BracketsInsert(key: map<Id, int>, tree: Tree, p: Path, x: Id)
    requires Plug(Leaf, p) == tree
    ensures InsertedIn(Inorder(tree), Before(p) + [x] + After(p), x)
    ensures Brackets(key, p, x) ==> SortedInsert(key, Inorder(tree), x) == Before(p) + [x] + After(p)
    ensures Brackets(key, p, x) && Sorted(key, Inorder(tree)) ==> Sorted(key, Before(p) + [x] + After(p))
  {
    PlugInorder(Leaf, p);
    var a, b, s := Before(p), After(p), Inorder(tree);
    assert s == a + b && s[..|a|] == a && s[|a|..] == b;
    if Brackets(key, p, x) {
      InsertBetween(key, a, b, x);
      if Sorted(key, s) { InsertKeepsSorted(key, s, x); }
    }
  }

  lemma AttachFramed(h: Heap, tree: Tree, p: Path, x: Id)
    requires p.Up? && Good(h, tree, Top) && Plug(Leaf, p) == tree && x > 0 && x !in Ids(tree)
    ensures RootParent(Attached(h, p.toLeft, p.id, x)) == RootParent(h)
    ensures forall z :: z != x && Unhung(h, z) ==> Unhung(Attached(h, p.toLeft, p.id, x), z)
  {
    GoodTop(h, Leaf, p);
    ZipTop(Leaf, p);
    RootInPath(h, p, NIL);
    assert p.id in PathIds(p);
    forall z | z != x && Unhung(h, z) ensures Unhung(Attached(h, p.toLeft, p.id, x), z) {
      assert h.Kid(p.toLeft, p.id) == NIL;
    }
  }

  lemma OneNode(h: Heap, x: Id)
    requires x > 0 && h.root == x && h.Left(x) == NIL == h.Right(x) && !h.Red(x)
    ensures Good(h, Node(Leaf, x, false, Leaf), Top) && RedBlack(Node(Leaf, x, false, Leaf))
    ensures Inorder(Node(Leaf, x, false, Leaf)) == [x]
  {
    assert Holds(h, Leaf) && RootOf(Leaf) == NIL && Ids(Leaf) == {};
    assert Proper(Node(Leaf, x, false, Leaf)) && Even(Node(Leaf, x, false, Leaf));
  }

  // ----- deletion

  lemma {:induction false} WithoutKeepsSorted(key: map<Id, int>, s: seq<Id>, x: Id)
    requires Sorted(key, s)
    ensures Sorted(key, Without(s, x))
    ensures s != [] && Without(s, x) != [] ==> Key(key, s[0]) <= Key(key, Without(s, x)[0])
  {
    if s != [] {
      assert Sorted(key, s[1..]);
      if s[0] != x {
        WithoutKeepsSorted(key, s[1..], x);
        FirstLeast(key, s[0], Without(s[1..], x));
      }
    }
  }

  /** No node is in the tree twice. */
  lemma {:induction false} InorderDistinct(t: Tree)
    requires Proper(t)
    ensures Distinct(Inorder(t))
  {
    if t.Node? {
      InorderDistinct(t.left);
      InorderDistinct(t.right);
      InorderIds(t.left);
      InorderIds(t.right);
      assert forall i :: 0 <= i < |Inorder(t.left)| ==> Inorder(t.left)[i] in Inorder(t.left);
      assert forall i :: 0 <= i < |Inorder(t.right)| ==> Inorder(t.right)[i] in Inorder(t.right);
    }
  }

  /** The first element leaves the front and takes the place of x. */
  function FirstInto(s: seq<Id>, x: Id): seq<Id> { if s == [] then [] else Subst(s[1..], x, s[0]) }

  lemma FirstIntoIs(s: seq<Id>, f: Id, x: Id)
    requires s != [] && s[0] == f
    ensures FirstInto(s, x) == Subst(s[1..], x, f)
  {
  }

  /** All that come before x have the least key. */
  ghost predicate LeastBefore(key: map<Id, int>, s: seq<Id>, x: Id) {
    forall i, j :: 0 <= i < j < |s| && s[j] == x ==> Key(key, s[i]) == Key(key, s[0])
  }

  lemma FirstIntoAt(s: seq<Id>, x: Id, k: int, i: int)
    requires Distinct(s) && 0 < k < |s| && s[k] == x && 0 <= i < |s| - 1
    ensures |FirstInto(s, x)| == |s| - 1 && FirstInto(s, x)[i] == if i == k - 1 then s[0] else s[i + 1]
  {
    assert s[1..][i] == s[i + 1];
  }

  lemma FirstIntoKeeps(key: map<Id, int>, s: seq<Id>, x: Id, k: int)
    requires Sorted(key, s) && Distinct(s) && 0 < k < |s| && s[k] == x && LeastBefore(key, s, x)
    ensures Sorted(key, FirstInto(s, x))
  {
    var t := FirstInto(s, x);
    forall i, j | 0 <= i < j < |t| ensures Key(key, t[i]) <= Key(key, t[j]) {
      FirstIntoAt(s, x, k, i);
      FirstIntoAt(s, x, k, j);
      if j == k - 1 { assert Key(key, s[i + 1]) == Key(key, s[0]); }
    }
  }

  lemma FirstIntoNeeds(key: map<Id, int>, s: seq<Id>, x: Id, k: int)
    requires Sorted(key, s) && Distinct(s) && 0 < k < |s| && s[k] == x && Sorted(key, FirstInto(s, x))
    ensures LeastBefore(key, s, x)
  {
    var t := FirstInto(s, x);
    forall i, j | 0 <= i < j < |s| && s[j] == x ensures Key(key, s[i]) == Key(key, s[0]) {
      assert j == k;
      if i > 0 {
        FirstIntoAt(s, x, k, i - 1);
        FirstIntoAt(s, x, k, k - 1);
        assert Key(key, t[i - 1]) <= Key(key, t[k - 1]);
      }
    }
  }

  /** The order stays sorted exactly if all nodes before x have the least key. */
  lemma FirstIntoSorted(key: map<Id, int>, s: seq<Id>, x: Id)
    requires Sorted(key, s) && Distinct(s) && s != [] && x in s && x != s[0]
    ensures Sorted(key, FirstInto(s, x)) <==> LeastBefore(key, s, x)
  {
    var k :| 0 <= k < |s| && s[k] == x;
    if LeastBefore(key, s, x) { FirstIntoKeeps(key, s, x, k); }
    if Sorted(key, FirstInto(s, x)) { FirstIntoNeeds(key, s, x, k); }
  }

  /** The way up from the first node. */
  predicate AllLeft(p: Path) { p.Up? ==> p.toLeft && AllLeft(p.up) }

  lemma {:induction false} LeftPath(p: Path)
    requires AllLeft(p)
    ensures Before(p) == []
  {
    if p.Up? { LeftPath(p.up); }
  }

  /** Nodes of the tree have real links. */
  lemma InTree(h: Heap, t: Tree, x: Id)
    requires Good(h, t, Top) && x in Ids(t)
    ensures h.Left(x) != NULL && h.Right(x) != NULL
  {
    var t', p := FindFocus(t, Top, x);
    GoodTop(h, t', p);
    ReadFocus(h, t', p);
  }

  /** The successor of a deleted root keeps a parent link to it. */
  lemma StaleLink(h: Heap, e: bool, x: Id, c: bool, r: Tree)
    requires Good(h, Join(e, Leaf, x, c, r), Top)
    ensures var h' := Uprooted(h, x, RootOf(r));
      && (r.Node? ==> h'.root == r.id && RootParent(h') == x && x != NULL)
      && Unhung(h', x) && forall z :: Unhung(h, z) ==> Unhung(h', z)
  {
    JoinHolds(h, e, Leaf, x, c, r);
    JoinIds(e, Leaf, x, c, r);
    assert r.Node? ==> r.id in Ids(r);
  }

  lemma BlackenedOrder(t: Tree)
    ensures Inorder(Blackened(t)) == Inorder(t)
  {
  }

  lemma RedOfFocus(h: Heap, t: Tree, p: Path)
    requires Good(h, t, p) && !h.Red(NIL)
    ensures h.Red(RootOf(t)) == RedRoot(t)
  {
  }

  lemma UnlinkedApart(h: Heap, e: bool, x: Id, c: bool, r: Tree, p: Path)
    requires p.Up? && Good(h, Join(e, Leaf, x, c, r), p)
    ensures x > 0 && x != RootOf(r) && x != p.id && p.id != RootOf(r) && Unlinked(h, p.toLeft, p.id, x, RootOf(r)).red == h.red
    ensures h.Kid(p.toLeft, p.id) == x && h.root != x && h.root != RootOf(r)
  {
    RootInPath(h, p, x);
    JoinIds(e, Leaf, x, c, r);
    PathIdsPositive(p);
    assert RootOf(r) in Ids(r) + {NIL} && p.id in PathIds(p) && x in Ids(Join(e, Leaf, x, c, r));
    UnlinkedLinks(h, p.toLeft, p.id, x, RootOf(r));
  }

  lemma UnlinkedFramed(h: Heap, d: bool, q: Id, x: Id, m: Id)
    requires x != m && x != q && q != m && h.Kid(d, q) == x && x > 0 && h.root != x && h.root != m
    ensures Unhung(Unlinked(h, d, q, x, m), x) && Framed(h, Unlinked(h, d, q, x, m))
  {
  }

  /** The links, the colours and the order when the first node f has taken the place of the fork x, before the repair. */
  lemma Substitution(h: Heap, f: Id, c: bool, r: Tree, p: Path, x: Id)
    requires Good(h, Node(Leaf, f, c, r), p) && RedBlack(Plug(Node(Leaf, f, c, r), p)) && AllLeft(p) && !h.Red(NIL)
    requires x in Ids(Plug(Node(Leaf, f, c, r), p)) && h.Left(x) != NIL && h.Right(x) != NIL
    ensures var h', p' := Cleared(Substituted(h, x, f), x), RenamePath(p, x, f);
      && p.Up? && p'.Up? && Good(h', r, p') && h'.Parent(RootOf(r)) == p'.id && !h'.Red(NIL) && Unhung(h', x) && Framed(h, h')
      && (if c then RedBlack(Plug(r, p')) else Short(r, p'))
      && Inorder(Plug(r, p')) == FirstInto(Inorder(Plug(Node(Leaf, f, c, r), p)), x)
  {
    ForkIsAbove(h, f, c, r, p, x);
    LeftPath(p);
    SubstituteGood(h, f, c, r, p, x);
    SubstituteFramed(h, f, c, r, p, x);
    SubstituteColors(f, c, r, p, x);
    SubstituteOrder(f, c, r, p, x);
    FirstIntoIs(Inorder(Plug(Node(Leaf, f, c, r), p)), f, x);
  }

  lemma SubstitutionReady(h: Heap, f: Id, c: bool, r: Tree, p: Path, x: Id)
    requires Good(h, Node(Leaf, f, c, r), p) && RedBlack(Plug(Node(Leaf, f, c, r), p)) && AllLeft(p)
    requires x in Ids(Plug(Node(Leaf, f, c, r), p)) && h.Left(x) != NIL && h.Right(x) != NIL
    ensures h.Right(f) == RootOf(r) && h.Red(f) == c && x != f
    ensures var h1 := Freed(h, x, f); h1.root == h.root && (x != h1.root ==> h1.Parent(x) != f)
  {
    ForkIsAbove(h, f, c, r, p, x);
    ReadFocus(h, Node(Leaf, f, c, r), p);
    SubstituteReady(h, f, c, r, p, x);
    FreedAround(h, f, c, r, p, x);
  }

  /** A sorted order stays so exactly if only nodes with the least key come before x. */
  lemma SubstitutionSorted(key: map<Id, int>, f: Id, c: bool, r: Tree, p: Path, x: Id)
    requires Zip(Node(Leaf, f, c, r), p) && AllLeft(p) && x in Ids(Plug(Node(Leaf, f, c, r), p)) && x != f
    ensures var s := Inorder(Plug(Node(Leaf, f, c, r), p));
            Sorted(key, s) ==> (Sorted(key, FirstInto(s, x)) <==> LeastBefore(key, s, x))
  {
    var t := Plug(Node(Leaf, f, c, r), p);
    LeftPath(p);
    FirstOrder(f, c, r, p);
    ZipTop(Node(Leaf, f, c, r), p);
    InorderDistinct(t);
    InorderIds(t);
    if Sorted(key, Inorder(t)) { FirstIntoSorted(key, Inorder(t), x); }
  }

  class RBTree {
    var root: Id
    var left: map<Id, Id>
    var right: map<Id, Id>
    var parent: map<Id, Id>
    var red: map<Id, bool>
    var key: map<Id, int>
    ghost var tree: Tree

    function H(): Heap
      reads this
    {
      Heap(root, left, right, parent, red)
    }

    /** The links hold a red-black tree; the sentinel is black. */
    ghost predicate Sound()
      reads this
    {
      Good(H(), tree, Top) && RedBlack(tree) && !H().Red(NIL)
    }

    /** ... and its nodes are in the order of their keys. */
    ghost predicate Valid()
      reads this
    {
      Sound() && Sorted(key, Order())
    }

    /** The nodes of the tree in order. */
    ghost function Order(): seq<Id>
      reads this
    {
      Inorder(tree)
    }

    constructor ()
      ensures Valid() && Order() == [] && forall z :: Unhung(H(), z)
    {
      left, right, parent, key := map[], map[], map[], map[];
      red := map[NIL := false];
      root := NIL;
      tree := Leaf;
    }

    method LeftRotate(x: Id)
      requires CanRotate(H(), true, x)
      modifies this`root, this`left, this`right, this`parent
      ensures H() == Rotated(old(H()), true, x) && Framed(old(H()), H())
    {
      RotatedFrame(H(), true, x);
      var y := H().Right(x);
      right := right[x := H().Left(y)];
      if H().Left(y) != NIL {
        parent := parent[H().Left(y) := x];
      }
      parent := parent[y := H().Parent(x)];
      if x == root {
        root := y;
      } else if x == H().Left(H().Parent(x)) {
        left := left[H().Parent(x) := y];
      } else {
        right := right[H().Parent(x) := y];
      }
      left := left[y := x];
      parent := parent[x := y];
    }

    method RightRotate(x: Id)
      requires CanRotate(H(), false, x)
      modifies this`root, this`left, this`right, this`parent
      ensures H() == Rotated(old(H()), false, x) && Framed(old(H()), H())
    {
      RotatedFrame(H(), false, x);
      var y := H().Left(x);
      left := left[x := H().Right(y)];
      if H().Right(y) != NIL {
        parent := parent[H().Right(y) := x];
      }
      parent := parent[y := H().Parent(x)];
      if x == root {
        root := y;
      } else if x == H().Right(H().Parent(x)) {
        right := right[H().Parent(x) := y];
      } else {
        left := left[H().Parent(x) := y];
      }
      right := right[y := x];
      parent := parent[x := y];
    }

    /** The keys of the tree are so near to that of x that 32-bit differences compare them rightly. */
    ghost predicate Near(x: Id)
      reads this
    {
      forall z :: z in Ids(tree) ==> -HALF <= Key(key, x) - Key(key, z) < HALF
    }

    /** The private Insert: go down from y to the sentinel on the side where x belongs, and hang x there. */
    method Hang(y: Id, x: Id) returns (ghost p: Path)
      requires Good(H(), tree, Top) && tree.Node? && y == root && x > 0 && x !in Ids(tree)
      modifies this`left, this`right, this`parent, this`red
      ensures p.Up? && Plug(Leaf, p) == tree && root == old(root)
      ensures Sorted(key, Order()) && old(Near(x)) ==> Brackets(key, p, x)
      ensures H() == Attached(old(H()), p.toLeft, p.id, x)
      ensures Good(H(), Node(Leaf, x, true, Leaf), p)
    {
      var at, left?, next := y, false, y;
      ghost var t, sorted := tree, Sorted(key, Order()) && Near(x);
      p := Top;
      while next != NIL
        invariant H() == old(H()) && Good(H(), t, p) && Plug(t, p) == tree && next == RootOf(t)
        invariant sorted ==> Brackets(key, p, x)
        invariant if p.Top? then next != NIL else at == p.id && left? == p.toLeft
        decreases t
      {
        at := next;
        left? := Diff(Key(key, x), Key(key, at)) < 0;
        StepDownGood(H(), t, p, left?);
        if sorted {
          DiffIs(Key(key, x), Key(key, at));
          StepDownBrackets(key, t, p, x);
        }
        next := if left? then H().Left(at) else H().Right(at);
        ghost var down := StepDown(t, p, left?);
        t, p := down.0, down.1;
      }
      ZipTop(t, p);
      AttachRep(H(), p, x);
      Attach(at, left?, x);
    }

    method Attach(at: Id, onLeft: bool, x: Id)
      modifies this`left, this`right, this`parent, this`red
      ensures H() == Attached(old(H()), onLeft, at, x)
    {
      if onLeft {
        left := left[at := x];
      } else {
        right := right[at := x];
      }
      parent := parent[x := at];
      left := left[x := NIL];
      right := right[x := NIL];
      red := red[x := true];
    }

    /** x enters the tree somewhere; if the tree was sorted, in the place of its key, after equal keys. The root's parent
        link stays as it was, and is null in a tree that was empty. */
    method Insert(x: Id)
      requires Sound() && x > 0 && x !in Ids(tree)
      modifies this`root, this`left, this`right, this`parent, this`red, this`tree
      ensures Sound() && InsertedIn(old(Order()), Order(), x)
      ensures old(Valid() && Near(x)) ==> Valid() && Order() == SortedInsert(key, old(Order()), x)
      ensures RootParent(H()) == if old(root) == NIL then NULL else old(RootParent(H()))
      ensures forall z :: z != x && Unhung(old(H()), z) ==> Unhung(H(), z)
    {
      if root == NIL {
        First(x);
        return;
      }
      ghost var h, order := H(), Order();
      ghost var p := Hang(root, x);
      AttachFramed(h, tree, p, x);
      StartFixing(H(), tree, p, x);
      BracketsInsert(key, tree, p, x);
      Repair(x, Node(Leaf, x, true, Leaf), p, Before(p) + [x] + After(p));
    }

    /** The first node of a tree. */
    method First(x: Id)
      requires Sound() && x > 0 && root == NIL
      modifies this`root, this`left, this`right, this`parent, this`red, this`tree
      ensures Sound() && old(Order()) == [] && Order() == [x] && RootParent(H()) == NULL
      ensures forall z :: z != x && Unhung(old(H()), z) ==> Unhung(H(), z)
      ensures Valid() && InsertedIn([], [x], x)
    {
      parent := parent[x := NULL];
      left := left[x := NIL];
      right := right[x := NIL];
      red := red[x := false];
      root := x;
      assert tree == Leaf;
      tree := Node(Leaf, x, false, Leaf);
      OneNode(H(), x);
      assert [x] == [][..0] + [x] + [][0..];
    }

    /** The loop of Insert. */
    method Repair(x: Id, ghost t0: Tree, ghost p0: Path, ghost order: seq<Id>)
      requires Fixing(H(), t0, p0, order) && x == t0.id
      modifies this`root, this`left, this`right, this`parent, this`red, this`tree
      ensures Sound() && Order() == order && Framed(old(H()), H())
    {
      ghost var t, p := t0, p0;
      var node := x;
      ReadAbove(H(), t, p);
      while node != root && H().Red(H().Parent(node))
        invariant Framed(old(H()), H()) && Fixing(H(), t, p, order) && node == t.id && (node == root <==> p.Top?)
        invariant p.Up? ==> H().Red(H().Parent(node)) == p.red
        decreases Depth(p)
      {
        t, p, node := RepairStep(t, p, order, node);
        ReadAbove(H(), t, p);
      }
      BlackenRoot(t, p, order);
    }

    /** The end of Insert. */
    method BlackenRoot(ghost t: Tree, ghost p: Path, ghost order: seq<Id>)
      requires Fixing(H(), t, p, order) && (p.Up? ==> !p.red)
      modifies this`red, this`tree
      ensures Sound() && Order() == order && Framed(old(H()), H())
    {
      Fixed(H(), t, p, order);
      tree := Blackened(Plug(t, p));
      red := red[root := false];
    }

    /** One round of the repair loop. */
    method RepairStep(ghost t: Tree, ghost p: Path, ghost order: seq<Id>, x: Id) returns (ghost t': Tree, ghost p': Path, node: Id)
      requires Fixing(H(), t, p, order) && x == t.id && p.Up? && p.red
      modifies this`root, this`left, this`right, this`parent, this`red
      ensures Fixing(H(), t', p', order) && node == t'.id && Depth(p') < Depth(p) && Framed(old(H()), H())
    {
      AboveRed(t, p);
      ReadAbove(H(), t, p);
      ReadAbove2(H(), t, p);
      if H().Parent(x) == H().Left(H().Parent(H().Parent(x))) {
        t', p', node := RepairLeft(t, p, order, x);
      } else {
        t', p', node := RepairRight(t, p, order, x);
      }
    }

    // The red node above the focus is a left child ...

    method RepairLeft(ghost t: Tree, ghost p: Path, ghost order: seq<Id>, x: Id) returns (ghost t': Tree, ghost p': Path, node: Id)
      requires Fixing(H(), t, p, order) && x == t.id && p.Up? && p.red && p.up.Up? && p.up.toLeft
      modifies this`root, this`left, this`right, this`parent, this`red
      ensures Fixing(H(), t', p', order) && node == t'.id && Depth(p') < Depth(p) && Framed(old(H()), H())
    {
      node := x;
      ReadAbove(H(), t, p);
      ReadAbove2(H(), t, p);
      var uncle := H().Right(H().Parent(H().Parent(node)));
      if H().Red(uncle) {
        UncleRed(H(), t, p, order);
        t', p' := TwoStepsUp(t, p).0, TwoStepsUp(t, p).1;
        red := red[H().Parent(node) := false];
        red := red[uncle := false];
        red := red[H().Parent(H().Parent(node)) := true];
        node := H().Parent(H().Parent(node));
      } else {
        t', p' := t, p;
        if node == H().Right(H().Parent(node)) {
          InnerFocus(H(), t, p, order);
          node := H().Parent(node);
          LeftRotate(node);
          t', p' := Outward(t, p).0, Outward(t, p).1;
          ReadAbove(H(), t', p');
          ReadAbove2(H(), t', p');
        }
        OuterLeft(t', p', order, node);
        p' := Settled(p');
      }
    }

    method OuterLeft(ghost t: Tree, ghost p: Path, ghost order: seq<Id>, node: Id)
      requires Fixing(H(), t, p, order) && node == t.id && p.Up? && p.red && p.up.Up? && p.up.toLeft && p.toLeft && !RedRoot(p.up.sibling)
      modifies this`root, this`left, this`right, this`parent, this`red
      ensures Fixing(H(), t, Settled(p), order) && Framed(old(H()), H())
    {
      ReadAbove(H(), t, p);
      ReadAbove2(H(), t, p);
      OuterFocus(H(), t, p, order);
      red := red[H().Parent(node) := false];
      red := red[H().Parent(H().Parent(node)) := true];
      RightRotate(H().Parent(H().Parent(node)));
    }

    // ... or a right child.

    method RepairRight(ghost t: Tree, ghost p: Path, ghost order: seq<Id>, x: Id) returns (ghost t': Tree, ghost p': Path, node: Id)
      requires Fixing(H(), t, p, order) && x == t.id && p.Up? && p.red && p.up.Up? && !p.up.toLeft
      modifies this`root, this`left, this`right, this`parent, this`red
      ensures Fixing(H(), t', p', order) && node == t'.id && Depth(p') < Depth(p) && Framed(old(H()), H())
    {
      node := x;
      ReadAbove(H(), t, p);
      ReadAbove2(H(), t, p);
      var uncle := H().Left(H().Parent(H().Parent(node)));
      if H().Red(uncle) {
        UncleRed(H(), t, p, order);
        t', p' := TwoStepsUp(t, p).0, TwoStepsUp(t, p).1;
        red := red[H().Parent(node) := false];
        red := red[uncle := false];
        red := red[H().Parent(H().Parent(node)) := true];
        node := H().Parent(H().Parent(node));
      } else {
        t', p' := t, p;
        if node == H().Left(H().Parent(node)) {
          InnerFocus(H(), t, p, order);
          node := H().Parent(node);
          RightRotate(node);
          t', p' := Outward(t, p).0, Outward(t, p).1;
          ReadAbove(H(), t', p');
          ReadAbove2(H(), t', p');
        }
        OuterRight(t', p', order, node);
        p' := Settled(p');
      }
    }

    method OuterRight(ghost t: Tree, ghost p: Path, ghost order: seq<Id>, node: Id)
      requires Fixing(H(), t, p, order) && node == t.id && p.Up? && p.red && p.up.Up? && !p.up.toLeft && !p.toLeft && !RedRoot(p.up.sibling)
      modifies this`root, this`left, this`right, this`parent, this`red
      ensures Fixing(H(), t, Settled(p), order) && Framed(old(H()), H())
    {
      ReadAbove(H(), t, p);
      ReadAbove2(H(), t, p);
      OuterFocus(H(), t, p, order);
      red := red[H().Parent(node) := false];
      red := red[H().Parent(H().Parent(node)) := true];
      LeftRotate(H().Parent(H().Parent(node)));
    }

    /** x has at most one real child. */
    ghost predicate OneChild(x: Id)
      reads this
    {
      H().Left(x) == NIL || H().Right(x) == NIL
    }

    /** Take x out. A node whose links are null is left alone. A node with two real children is replaced by the first node of
        the whole tree: the order then stays sorted exactly if all nodes before x have the least key. The root's parent
        link stays as it was, except that a root's only child keeps pointing to the deleted root. */
    method Delete(x: Id)
      requires Sound() && (x in Ids(tree) || H().Left(x) == NULL || H().Right(x) == NULL)
      modifies this`root, this`left, this`right, this`parent, this`red, this`tree
      ensures Sound()
      ensures old(x !in Ids(tree)) ==> H() == old(H()) && tree == old(tree)
      ensures old(x in Ids(tree)) ==> Unhung(H(), x)
      ensures old(x in Ids(tree)) ==>
                Order() == if old(OneChild(x)) then Without(old(Order()), x) else FirstInto(old(Order()), x)
      ensures old(Valid() && x in Ids(tree)) ==> (Valid() <==> old(OneChild(x)) || LeastBefore(key, old(Order()), x))
      ensures old(x != root || !OneChild(x)) ==> RootParent(H()) == old(RootParent(H()))
      ensures old(x == root && OneChild(x)) && root != NIL ==> RootParent(H()) == x
      ensures forall z :: Unhung(old(H()), z) ==> Unhung(H(), z)
    {
      if x in Ids(tree) { InTree(H(), tree, x); }
      if H().Left(x) == NULL || H().Right(x) == NULL {
        return;
      }
      if H().Left(x) == NIL || H().Right(x) == NIL {
        DeleteOne(x);
      } else {
        Substitute(x);
      }
    }

    /** Delete for a node with at most one real child. */
    method DeleteOne(x: Id)
      requires Sound() && x in Ids(tree) && OneChild(x)
      modifies this`root, this`left, this`right, this`parent, this`red, this`tree
      ensures Sound() && Unhung(H(), x) && Order() == Without(old(Order()), x)
      ensures old(Valid()) ==> Valid()
      ensures old(x != root) ==> RootParent(H()) == old(RootParent(H()))
      ensures old(x == root) && root != NIL ==> RootParent(H()) == x
      ensures forall z :: Unhung(old(H()), z) ==> Unhung(H(), z)
    {
      ghost var t, p := FindFocus(tree, Top, x);
      GoodTop(H(), t, p);
      ReadFocus(H(), t, p);
      var temp, e;
      if H().Left(x) == NIL {
        temp, e := H().Right(x), true;
      } else {
        temp, e := H().Left(x), false;
      }
      ghost var r := if e then t.right else t.left;
      OneChildIs(H(), t, p, e, r);
      if Sorted(key, Order()) { WithoutKeepsSorted(key, Order(), x); }
      if x == root {
        Uproot(x, temp, e, t.red, r);
      } else {
        Unlink(x, temp, e, t.red, r, p);
      }
    }

    /** ... when x is the root. */
    method Uproot(x: Id, temp: Id, ghost e: bool, ghost c: bool, ghost r: Tree)
      requires Good(H(), Join(e, Leaf, x, c, r), Top) && temp == RootOf(r) && !H().Red(NIL) && RedBlack(Blackened(r))
      modifies this`root, this`left, this`right, this`parent, this`red, this`tree
      ensures Sound() && Unhung(H(), x) && Order() == Inorder(r)
      ensures root != NIL ==> RootParent(H()) == x
      ensures forall z :: Unhung(old(H()), z) ==> Unhung(H(), z)
    {
      UprootRep(H(), e, x, c, r);
      StaleLink(H(), e, x, c, r);
      BlackenedOrder(r);
      root := temp;
      red := red[temp := false];
      left := left[x := NULL];
      right := right[x := NULL];
      parent := parent[x := NULL];
      tree := Blackened(r);
    }

    /** ... when x is not the root. */
    method Unlink(x: Id, temp: Id, ghost e: bool, ghost c: bool, ghost r: Tree, ghost p: Path)
      requires Good(H(), Join(e, Leaf, x, c, r), p) && p.Up? && temp == RootOf(r) && !H().Red(NIL)
      requires if c then RedBlack(Plug(r, p)) else Short(r, p)
      modifies this`root, this`left, this`right, this`parent, this`red, this`tree
      ensures Sound() && Unhung(H(), x) && Order() == Inorder(Plug(r, p)) && Framed(old(H()), H())
    {
      ghost var h := H();
      var wasRed := H().Red(x);
      ReadFocus(h, Join(e, Leaf, x, c, r), p);
      UnlinkRep(h, e, x, c, r, p);
      UnlinkedApart(h, e, x, c, r, p);
      UnlinkedFramed(h, p.toLeft, p.id, x, temp);
      Cut(x, temp, p.toLeft, p.id);
      AfterUnlink(wasRed, temp, r, p);
    }

    /** The assignments of Unlink. */
    method Cut(x: Id, temp: Id, ghost d: bool, ghost q: Id)
      requires q == H().Parent(x) && d == (x == H().Left(q)) && x != temp && x != q
      modifies this`left, this`right, this`parent
      ensures H() == Unlinked(old(H()), d, q, x, temp)
    {
      if x == H().Left(H().Parent(x)) {
        left := left[H().Parent(x) := temp];
      } else {
        right := right[H().Parent(x) := temp];
      }
      parent := parent[temp := H().Parent(x)];
      Clear(x);
    }

    /** Repair if the node taken out was black. */
    method AfterUnlink(wasRed: bool, temp: Id, ghost r: Tree, ghost p: Path)
      requires Good(H(), r, p) && p.Up? && temp == RootOf(r) && H().Parent(temp) == p.id && !H().Red(NIL)
      requires if wasRed then RedBlack(Plug(r, p)) else Short(r, p)
      modifies this`root, this`left, this`right, this`parent, this`red, this`tree
      ensures Sound() && Order() == Inorder(Plug(r, p)) && Framed(old(H()), H())
    {
      if wasRed {
        GoodTop(H(), r, p);
        tree := Plug(r, p);
        return;
      }
      Refill(temp, r, p, Inorder(Plug(r, p)));
    }

    /** Delete for a node with two real children. */
    method Substitute(x: Id)
      requires Sound() && x in Ids(tree) && H().Left(x) != NIL && H().Right(x) != NIL
      modifies this`root, this`left, this`right, this`parent, this`red, this`tree
      ensures Sound() && Unhung(H(), x) && Framed(old(H()), H()) && Order() == FirstInto(old(Order()), x)
      ensures old(Valid()) ==> (Valid() <==> LeastBefore(key, old(Order()), x))
    {
      var f; ghost var t, p;
      f, t, p := Leftmost();
      SubstitutionReady(H(), f, t.red, t.right, p, x);
      SubstitutionSorted(key, f, t.red, t.right, p, x);
      SubstituteFirst(x, f, t.red, t.right, p);
    }

    /** ... when the first node f has been found. */
    method SubstituteFirst(x: Id, f: Id, ghost c: bool, ghost r: Tree, ghost p: Path)
      requires Good(H(), Node(Leaf, f, c, r), p) && RedBlack(Plug(Node(Leaf, f, c, r), p)) && AllLeft(p) && !H().Red(NIL)
      requires x in Ids(Plug(Node(Leaf, f, c, r), p)) && H().Left(x) != NIL && H().Right(x) != NIL
      modifies this`root, this`left, this`right, this`parent, this`red, this`tree
      ensures Sound() && Unhung(H(), x) && Framed(old(H()), H())
      ensures Order() == FirstInto(Inorder(Plug(Node(Leaf, f, c, r), p)), x)
    {
      Substitution(H(), f, c, r, p, x);
      SubstitutionReady(H(), f, c, r, p, x);
      var temp, wasRed := H().Right(f), H().Red(f);
      TakeOver(x, f, temp);
      AfterUnlink(wasRed, temp, r, RenamePath(p, x, f));
    }

    method TakeOver(x: Id, f: Id, temp: Id)
      requires temp == H().Right(f) && x != f
      requires x != root ==> Freed(H(), x, f).Parent(x) != f
      modifies this`root, this`left, this`right, this`parent, this`red
      ensures H() == Cleared(Substituted(old(H()), x, f), x)
    {
      Free(x, f, temp);
      Replace(x, f);
      Clear(x);
    }

    // The assignments of Substitute: f is unlinked, ...

    method Free(x: Id, f: Id, temp: Id)
      requires temp == H().Right(f)
      modifies this`left, this`right, this`parent
      ensures H() == Freed(old(H()), x, f)
    {
      var q := H().Parent(f);
      if f == H().Left(q) {
        left := left[q := temp];
      } else {
        right := right[q := temp];
      }
      if q == x {
        parent := parent[temp := f];
      } else {
        parent := parent[temp := q];
      }
    }

    // ... takes over the links of x ...

    method Replace(x: Id, f: Id)
      requires x != f && (x != root ==> H().Parent(x) != f)
      modifies this`root, this`left, this`right, this`parent, this`red
      ensures H() == Renamed(old(H()), x, f)
    {
      ghost var a, b := H().Left(x), H().Right(x);
      Rehang(x, f);
      assert H().Left(f) == a && H().Right(f) == b;
      if H().Left(f) != NIL {
        parent := parent[H().Left(f) := f];
      }
      if H().Right(f) != NIL {
        parent := parent[H().Right(f) := f];
      }
    }

    method Rehang(x: Id, f: Id)
      requires x != f && (x != root ==> H().Parent(x) != f)
      modifies this`root, this`left, this`right, this`parent, this`red
      ensures var h := old(H());
        && H() == Rehung(h, x, f, h.Left(x), h.Right(x), h.Parent(x)).(parent := h.parent[f := h.Parent(x)])
        && H().Left(f) == h.Left(x) && H().Right(f) == h.Right(x)
    {
      left, right := left[f := H().Left(x)], right[f := H().Right(x)];
      parent := parent[f := H().Parent(x)];
      red := red[f := H().Red(x)];
      if x == root {
        root := f;
      } else if x == H().Left(H().Parent(x)) {
        left := left[H().Parent(x) := f];
      } else {
        right := right[H().Parent(x) := f];
      }
    }

    // ... and x is left without links.

    method Clear(x: Id)
      modifies this`left, this`right, this`parent
      ensures H() == Cleared(old(H()), x)
    {
      left := left[x := NULL];
      right := right[x := NULL];
      parent := parent[x := NULL];
    }

    /** The first node of the tree, going left from the root. */
    method Leftmost() returns (node: Id, ghost t: Tree, ghost p: Path)
      requires Sound() && root != NIL
      ensures Good(H(), t, p) && Plug(t, p) == tree && t.Node? && t.left.Leaf? && node == t.id && AllLeft(p)
    {
      node := root;
      t, p := tree, Top;
      while H().Left(node) != NIL && node != NIL
        invariant Good(H(), t, p) && Plug(t, p) == tree && t.Node? && node == t.id && AllLeft(p)
        decreases t
      {
        ReadFocus(H(), t, p);
        StepDownGood(H(), t, p, true);
        node := H().Left(node);
        t, p := t.left, Up(true, t.id, t.red, t.right, p);
      }
      ReadFocus(H(), t, p);
    }

    /** The loop of Delete. */
    method Refill(x: Id, ghost t0: Tree, ghost p0: Path, ghost order: seq<Id>)
      requires Erasing(H(), t0, p0, order) && x == RootOf(t0)
      modifies this`root, this`left, this`right, this`parent, this`red, this`tree
      ensures Sound() && Order() == order && Framed(old(H()), H())
    {
      ghost var t, p := t0, p0;
      var temp := x;
      ReadFocus(H(), t, p);
      RedOfFocus(H(), t, p);
      while temp != root && !H().Red(temp)
        invariant Erasing(H(), t, p, order) && temp == RootOf(t) && Framed(old(H()), H())
        invariant (temp == root <==> p.Top?) && H().Red(temp) == RedRoot(t)
        decreases Work(t, p)
      {
        t, p, temp := RefillStep(t, p, order, temp);
        ReadFocus(H(), t, p);
        RedOfFocus(H(), t, p);
      }
      EndRefill(t, p, order, temp);
    }

    method EndRefill(ghost t: Tree, ghost p: Path, ghost order: seq<Id>, temp: Id)
      requires Erasing(H(), t, p, order) && temp == RootOf(t) && (p.Top? || RedRoot(t))
      modifies this`red, this`tree
      ensures Sound() && Order() == order && Framed(old(H()), H())
    {
      Erased(H(), t, p, order);
      tree := Plug(Blackened(t), p);
      red := red[temp := false];
    }

    method RefillStep(ghost t: Tree, ghost p: Path, ghost order: seq<Id>, x: Id) returns (ghost t': Tree, ghost p': Path, temp: Id)
      requires Erasing(H(), t, p, order) && x == RootOf(t) && p.Up? && !RedRoot(t)
      modifies this`root, this`left, this`right, this`parent, this`red
      ensures Erasing(H(), t', p', order) && temp == RootOf(t') && Work(t', p') < Work(t, p) && Framed(old(H()), H())
    {
      SiblingIsNode(t, p);
      ReadFocus(H(), t, p);
      if x == H().Left(H().Parent(x)) {
        t', p', temp := RefillLeft(t, p, order, x);
      } else {
        t', p', temp := RefillRight(t, p, order, x);
      }
    }

    // One round of the loop, in three parts: a red sibling is rotated away; then either the sibling turns red and the focus
    // goes up, or the focus gets a black node from the sibling's side.

    method RaiseLeft(ghost t: Tree, ghost p: Path, ghost order: seq<Id>, temp: Id) returns (ghost p': Path, w: Id)
      requires Erasing(H(), t, p, order) && temp == RootOf(t) && p.Up? && p.toLeft
      modifies this`root, this`left, this`right, this`parent, this`red
      ensures Erasing(H(), t, p', order) && p'.Up? && p'.toLeft == p.toLeft && p'.sibling.Node? && !p'.sibling.red && w == p'.sibling.id
      ensures Framed(old(H()), H())
      ensures p'.red || Depth(p') == Depth(p)
    {
      p' := p;
      SiblingIsNode(t, p);
      ReadFocus(H(), t, p);
      ReadSibling(H(), t, p);
      w := H().Right(H().Parent(temp));
      if H().Red(w) {
        RedSibling(H(), t, p, order);
        red := red[w := false];
        red := red[H().Parent(temp) := true];
        LeftRotate(H().Parent(temp));
        p' := AfterRed(p);
        ReadSibling(H(), t, p');
        w := H().Right(H().Parent(temp));
      }
    }

    method BorrowLeft(ghost t: Tree, ghost p: Path, ghost order: seq<Id>, temp: Id, sibling: Id) returns (ghost t': Tree)
      requires Erasing(H(), t, p, order) && temp == RootOf(t) && p.Up? && !RedRoot(t) && p.toLeft
      requires p.sibling.Node? && !p.sibling.red && sibling == p.sibling.id && (RedRoot(p.sibling.left) || RedRoot(p.sibling.right))
      modifies this`root, this`left, this`right, this`parent, this`red
      ensures Erasing(H(), t', Top, order) && Framed(old(H()), H())
    {
      ghost var p' := p;
      var w := sibling;
      ReadFocus(H(), t, p);
      ReadSibling(H(), t, p);
      if !H().Red(H().Right(w)) {
        p' := NearLeft(t, p, order, w);
        ReadFocus(H(), t, p');
        ReadSibling(H(), t, p');
        w := H().Right(H().Parent(temp));
      }
      t' := FarLeft(t, p', order, temp, w);
    }

    /** The near child of the sibling becomes the sibling. */
    method NearLeft(ghost t: Tree, ghost p: Path, ghost order: seq<Id>, w: Id) returns (ghost p': Path)
      requires Erasing(H(), t, p, order) && p.Up? && !RedRoot(t) && p.toLeft && p.sibling.Node? && !p.sibling.red
      requires w == p.sibling.id && RedRoot(p.sibling.left) && !RedRoot(p.sibling.right)
      modifies this`root, this`left, this`right, this`parent, this`red
      ensures Erasing(H(), t, p', order) && Framed(old(H()), H())
      ensures p'.Up? && p'.toLeft == p.toLeft && p'.sibling.Node? && !p'.sibling.red && RedRoot(p'.sibling.right)
    {
      ReadSibling(H(), t, p);
      NearRed(H(), t, p, order);
      red := red[H().Left(w) := false];
      red := red[w := true];
      RightRotate(w);
      p' := AfterNear(p);
    }

    /** The sibling takes the place above, and its far child turns black. */
    method FarLeft(ghost t: Tree, ghost p: Path, ghost order: seq<Id>, temp: Id, w: Id) returns (ghost t': Tree)
      requires Erasing(H(), t, p, order) && temp == RootOf(t) && p.Up? && !RedRoot(t) && p.toLeft
      requires p.sibling.Node? && !p.sibling.red && w == p.sibling.id && RedRoot(p.sibling.right)
      modifies this`root, this`left, this`right, this`parent, this`red
      ensures Erasing(H(), t', Top, order) && Framed(old(H()), H())
    {
      ReadFocus(H(), t, p);
      ReadSibling(H(), t, p);
      FarRed(H(), t, p, order);
      red := red[w := H().Red(H().Parent(temp))];
      red := red[H().Parent(temp) := false];
      red := red[H().Right(w) := false];
      LeftRotate(H().Parent(temp));
      t' := AfterFar(t, p);
    }

    method RefillLeft(ghost t: Tree, ghost p: Path, ghost order: seq<Id>, x: Id) returns (ghost t': Tree, ghost p': Path, temp: Id)
      requires Erasing(H(), t, p, order) && x == RootOf(t) && p.Up? && !RedRoot(t) && p.toLeft
      modifies this`root, this`left, this`right, this`parent, this`red
      ensures Erasing(H(), t', p', order) && temp == RootOf(t') && Work(t', p') < Work(t, p) && Framed(old(H()), H())
    {
      temp := x;
      var w;
      p', w := RaiseLeft(t, p, order, temp);
      ReadSibling(H(), t, p');
      if !H().Red(H().Left(w)) && !H().Red(H().Right(w)) {
        BlackSibling(H(), t, p', order);
        t', p' := AfterBlack(t, p'), p'.up;
        red := red[w := true];
        temp := H().Parent(temp);
      } else {
        t' := BorrowLeft(t, p', order, temp, w);
        p', temp := Top, root;
      }
    }

    // ... and the mirror image.

    method RaiseRight(ghost t: Tree, ghost p: Path, ghost order: seq<Id>, temp: Id) returns (ghost p': Path, w: Id)
      requires Erasing(H(), t, p, order) && temp == RootOf(t) && p.Up? && !p.toLeft
      modifies this`root, this`left, this`right, this`parent, this`red
      ensures Erasing(H(), t, p', order) && p'.Up? && p'.toLeft == p.toLeft && p'.sibling.Node? && !p'.sibling.red && w == p'.sibling.id
      ensures Framed(old(H()), H())
      ensures p'.red || Depth(p') == Depth(p)
    {
      p' := p;
      SiblingIsNode(t, p);
      ReadFocus(H(), t, p);
      ReadSibling(H(), t, p);
      w := H().Left(H().Parent(temp));
      if H().Red(w) {
        RedSibling(H(), t, p, order);
        red := red[w := false];
        red := red[H().Parent(temp) := true];
        RightRotate(H().Parent(temp));
        p' := AfterRed(p);
        ReadSibling(H(), t, p');
        w := H().Left(H().Parent(temp));
      }
    }

    method BorrowRight(ghost t: Tree, ghost p: Path, ghost order: seq<Id>, temp: Id, sibling: Id) returns (ghost t': Tree)
      requires Erasing(H(), t, p, order) && temp == RootOf(t) && p.Up? && !RedRoot(t) && !p.toLeft
      requires p.sibling.Node? && !p.sibling.red && sibling == p.sibling.id && (RedRoot(p.sibling.left) || RedRoot(p.sibling.right))
      modifies this`root, this`left, this`right, this`parent, this`red
      ensures Erasing(H(), t', Top, order) && Framed(old(H()), H())
    {
      ghost var p' := p;
      var w := sibling;
      ReadFocus(H(), t, p);
      ReadSibling(H(), t, p);
      if !H().Red(H().Left(w)) {
        p' := NearRight(t, p, order, w);
        ReadFocus(H(), t, p');
        ReadSibling(H(), t, p');
        w := H().Left(H().Parent(temp));
      }
      t' := FarRight(t, p', order, temp, w);
    }

    /** The near child of the sibling becomes the sibling. */
    method NearRight(ghost t: Tree, ghost p: Path, ghost order: seq<Id>, w: Id) returns (ghost p': Path)
      requires Erasing(H(), t, p, order) && p.Up? && !RedRoot(t) && !p.toLeft && p.sibling.Node? && !p.sibling.red
      requires w == p.sibling.id && RedRoot(p.sibling.right) && !RedRoot(p.sibling.left)
      modifies this`root, this`left, this`right, this`parent, this`red
      ensures Erasing(H(), t, p', order) && Framed(old(H()), H())
      ensures p'.Up? && p'.toLeft == p.toLeft && p'.sibling.Node? && !p'.sibling.red && RedRoot(p'.sibling.left)
    {
      ReadSibling(H(), t, p);
      NearRed(H(), t, p, order);
      red := red[H().Right(w) := false];
      red := red[w := true];
      LeftRotate(w);
      p' := AfterNear(p);
    }

    /** The sibling takes the place above, and its far child turns black. */
    method FarRight(ghost t: Tree, ghost p: Path, ghost order: seq<Id>, temp: Id, w: Id) returns (ghost t': Tree)
      requires Erasing(H(), t, p, order) && temp == RootOf(t) && p.Up? && !RedRoot(t) && !p.toLeft
      requires p.sibling.Node? && !p.sibling.red && w == p.sibling.id && RedRoot(p.sibling.left)
      modifies this`root, this`left, this`right, this`parent, this`red
      ensures Erasing(H(), t', Top, order) && Framed(old(H()), H())
    {
      ReadFocus(H(), t, p);
      ReadSibling(H(), t, p);
      FarRed(H(), t, p, order);
      red := red[w := H().Red(H().Parent(temp))];
      red := red[H().Parent(temp) := false];
      red := red[H().Left(w) := false];
      RightRotate(H().Parent(temp));
      t' := AfterFar(t, p);
    }

    method RefillRight(ghost t: Tree, ghost p: Path, ghost order: seq<Id>, x: Id) returns (ghost t': Tree, ghost p': Path, temp: Id)
      requires Erasing(H(), t, p, order) && x == RootOf(t) && p.Up? && !RedRoot(t) && !p.toLeft
      modifies this`root, this`left, this`right, this`parent, this`red
      ensures Erasing(H(), t', p', order) && temp == RootOf(t') && Work(t', p') < Work(t, p) && Framed(old(H()), H())
    {
      temp := x;
      var w;
      p', w := RaiseRight(t, p, order, temp);
      ReadSibling(H(), t, p');
      if !H().Red(H().Left(w)) && !H().Red(H().Right(w)) {
        BlackSibling(H(), t, p', order);
        t', p' := AfterBlack(t, p'), p'.up;
        red := red[w := true];
        temp := H().Parent(temp);
      } else {
        t' := BorrowRight(t, p', order, temp, w);
        p', temp := Top, root;
      }
    }

    /** Iterator::SeekToFirst: the first node in order, or the sentinel of an empty tree. */
    method SeekToFirst() returns (node: Id)
      requires Sound()
      ensures Order() == [] <==> node == NIL
      ensures node != NIL ==> node == Order()[0] && node in Ids(tree) && H().Left(node) == NIL
    {
      if root == NIL {
        assert tree == Leaf;
        return NIL;
      }
      ghost var t, p;
      node, t, p := Leftmost();
      LeftPath(p);
      ReadFocus(H(), t, p);
      StepDownGood(H(), t, p, true);
      FirstOrder(node, t.red, t.right, p);
    }
  }
}
