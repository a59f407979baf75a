/** Binary trees of node numbers, a focus inside them, and how links stored in maps hold them
    (netfram/RBTree.h). Every notion that has a mirror image takes the side as a parameter: true is left. */
module RBShape {

  /** A node by number: 0 is the sentinel, -1 the null pointer, real nodes are positive. */
  type Id = int
  const NIL: Id := 0
  const NULL: Id := -1

  datatype Tree = Leaf | Node(left: Tree, id: Id, red: bool, right: Tree)

  /** The way up from a focus: the node above, which of its children the focus is, and its other child. */
  datatype Path = Top | Up(toLeft: bool, id: Id, red: bool, sibling: Tree, up: Path)

  function Join(d: bool, near: Tree, x: Id, red: bool, far: Tree): Tree {
    if d then Node(near, x, red, far) else Node(far, x, red, near)
  }

  function Plug(t: Tree, p: Path): Tree
    decreases p
  {
    match p
    case Top => t
    case Up(d, x, c, s, up) => Plug(Join(d, t, x, c, s), up)
  }

  function RootOf(t: Tree): Id { if t.Leaf? then NIL else t.id }

  function Ids(t: Tree): set<Id> {
    match t
    case Leaf => {}
    case Node(l, x, _, r) => Ids(l) + {x} + Ids(r)
  }

  function PathIds(p: Path): set<Id> {
    match p
    case Top => {}
    case Up(_, x, _, s, up) => {x} + Ids(s) + PathIds(up)
  }

  function Inorder(t: Tree): seq<Id> {
    match t
    case Leaf => []
    case Node(l, x, _, r) => Inorder(l) + [x] + Inorder(r)
  }

  /** What comes before the focus, and after it. */
  function Before(p: Path): seq<Id> {
    match p
    case Top => []
    case Up(d, x, _, s, up) => if d then Before(up) else Before(up) + (Inorder(s) + [x])
  }

  function After(p: Path): seq<Id> {
    match p
    case Top => []
    case Up(d, x, _, s, up) => if d then [x] + Inorder(s) + After(up) else After(up)
  }

  lemma {:induction false} PlugInorder(t: Tree, p: Path)
    ensures Inorder(Plug(t, p)) == Before(p) + Inorder(t) + After(p)
    decreases p
  {
    match p
    case Top =>
    case Up(d, x, c, s, up) =>
      PlugInorder(Join(d, t, x, c, s), up);
      Regroup(Before(up), Inorder(t), [x], Inorder(s), After(up));
      Regroup(Before(up), Inorder(s), [x], Inorder(t), After(up));
  }

  lemma Regroup<T>(a: seq<T>, b: seq<T>, c: seq<T>, d: seq<T>, e: seq<T>)
    ensures a + (b + c + d) + e == a + b + (c + d + e) == (a + (b + c)) + d + e
  {
  }

  // ----- no node twice

  predicate Proper(t: Tree) {
    match t
    case Leaf => true
    case Node(l, x, _, r) => x > 0 && x !in Ids(l) && x !in Ids(r) && Ids(l) !! Ids(r) && Proper(l) && Proper(r)
  }

  predicate ProperPath(p: Path) {
    match p
    case Top => true
    case Up(_, x, _, s, up) =>
      x > 0 && x !in Ids(s) && x !in PathIds(up) && Ids(s) !! PathIds(up) && Proper(s) && ProperPath(up)
  }

  predicate Zip(t: Tree, p: Path) { Proper(t) && ProperPath(p) && Ids(t) !! PathIds(p) }

  lemma ZipUp(t: Tree, d: bool, x: Id, c: bool, s: Tree, up: Path)
    ensures Zip(t, Up(d, x, c, s, up)) <==> Zip(Join(d, t, x, c, s), up)
  {
  }

  lemma {:induction false} ZipTop(t: Tree, p: Path)
    ensures Zip(t, p) <==> Zip(Plug(t, p), Top)
    ensures Ids(Plug(t, p)) == Ids(t) + PathIds(p)
    decreases p
  {
    match p
    case Top =>
    case Up(d, x, c, s, up) =>
      ZipUp(t, d, x, c, s, up);
      ZipTop(Join(d, t, x, c, s), up);
  }

  // ----- links in maps

  function Get<V(0)>(m: map<Id, V>, x: Id, none: V): V { if x in m then m[x] else none }

  datatype Heap = Heap(root: Id, left: map<Id, Id>, right: map<Id, Id>, parent: map<Id, Id>, red: map<Id, bool>)
  {
    function Left(x: Id): Id { Get(left, x, NULL) }
    function Right(x: Id): Id { Get(right, x, NULL) }
    function Kid(d: bool, x: Id): Id { if d then Left(x) else Right(x) }
    function Parent(x: Id): Id { Get(parent, x, NULL) }
    function Red(x: Id): bool { Get(red, x, false) }

    function SetKid(d: bool, x: Id, y: Id): Heap { if d then this.(left := left[x := y]) else this.(right := right[x := y]) }
    function SetParent(x: Id, y: Id): Heap { this.(parent := parent[x := y]) }
    function Paint(x: Id, c: bool): Heap { this.(red := red[x := c]) }
  }

  /** The links below the root of t. */
  predicate Holds(h: Heap, t: Tree) {
    match t
    case Leaf => true
    case Node(l, x, c, r) =>
      && h.Left(x) == RootOf(l) && h.Right(x) == RootOf(r) && h.Red(x) == c
      && (l.Node? ==> h.Parent(l.id) == x) && (r.Node? ==> h.Parent(r.id) == x)
      && Holds(h, l) && Holds(h, r)
  }

  /** The links from the tree's root down to the focus. The root's own parent link is free. */
  predicate HoldsPath(h: Heap, p: Path, focus: Id) {
    match p
    case Top => h.root == focus
    case Up(d, x, c, s, up) =>
      && h.Kid(d, x) == focus && h.Kid(!d, x) == RootOf(s) && h.Red(x) == c
      && (s.Node? ==> h.Parent(s.id) == x) && Holds(h, s)
      && (up.Up? ==> h.Parent(x) == up.id) && HoldsPath(h, up, x)
  }

  /** The heap holds Plug(t, p). */
  predicate Rep(h: Heap, t: Tree, p: Path) {
    Holds(h, t) && HoldsPath(h, p, RootOf(t)) && (p.Up? && t.Node? ==> h.Parent(t.id) == p.id)
  }

  lemma RepUp(h: Heap, t: Tree, d: bool, x: Id, c: bool, s: Tree, up: Path)
    ensures Rep(h, t, Up(d, x, c, s, up)) <==> Rep(h, Join(d, t, x, c, s), up)
  {
  }

  lemma {:induction false} RepTop(h: Heap, t: Tree, p: Path)
    ensures Rep(h, t, p) <==> Rep(h, Plug(t, p), Top)
    decreases p
  {
    match p
    case Top =>
    case Up(d, x, c, s, up) =>
      RepUp(h, t, d, x, c, s, up);
      RepTop(h, Join(d, t, x, c, s), up);
  }

  // ----- frames

  /** The nodes in ids keep their links; the parent link of node `but` may change. */
  predicate Same(h: Heap, h': Heap, ids: set<Id>, but: Id) {
    forall x :: x in ids ==>
      h'.Left(x) == h.Left(x) && h'.Right(x) == h.Right(x) && h'.Red(x) == h.Red(x) && (x != but ==> h'.Parent(x) == h.Parent(x))
  }

  lemma {:induction false} HoldsSame(h: Heap, h': Heap, t: Tree)
    requires Holds(h, t) && Proper(t) && Same(h, h', Ids(t), RootOf(t))
    ensures Holds(h', t)
  {
    match t
    case Leaf =>
    case Node(l, x, c, r) =>
      assert x in Ids(t);
      assert l.Node? ==> l.id in Ids(t);
      assert r.Node? ==> r.id in Ids(t);
      HoldsSame(h, h', l);
      HoldsSame(h, h', r);
  }

  lemma {:induction false} IdsPositive(t: Tree)
    requires Proper(t)
    ensures forall x :: x in Ids(t) ==> x > 0
  {
    if t.Node? {
      IdsPositive(t.left);
      IdsPositive(t.right);
    }
  }

  lemma {:induction false} PathSame(h: Heap, h': Heap, p: Path, focus: Id)
    requires HoldsPath(h, p, focus) && ProperPath(p) && Same(h, h', PathIds(p), NIL) && h'.root == h.root
    ensures HoldsPath(h', p, focus)
  {
    match p
    case Top =>
    case Up(d, x, c, s, up) =>
      assert x in PathIds(p);
      assert s.Node? ==> s.id in PathIds(p);
      IdsPositive(s);
      HoldsSame(h, h', s);
      PathSame(h, h', up, x);
  }

  // ----- painting and rotating

  lemma PaintRep(h: Heap, d: bool, l: Tree, x: Id, c: bool, r: Tree, p: Path, c': bool)
    requires Rep(h, Join(d, l, x, c, r), p) && Zip(Join(d, l, x, c, r), p)
    ensures Rep(h.Paint(x, c'), Join(d, l, x, c', r), p) && Zip(Join(d, l, x, c', r), p)
  {
    var h' := h.Paint(x, c');
    JoinIds(d, l, x, c, r);
    JoinIds(d, l, x, c', r);
    JoinHolds(h, d, l, x, c, r);
    JoinHolds(h', d, l, x, c', r);
    PaintSame(h, x, c', Ids(l), RootOf(l));
    PaintSame(h, x, c', Ids(r), RootOf(r));
    PaintSame(h, x, c', PathIds(p), NIL);
    HoldsSame(h, h', l);
    HoldsSame(h, h', r);
    PathSame(h, h', p, x);
  }

  lemma PaintSame(h: Heap, x: Id, c: bool, ids: set<Id>, but: Id)
    requires x !in ids
    ensures Same(h, h.Paint(x, c), ids, but)
  {
  }

  /** Rotate x down to side d: its child y on the far side takes its place, and x takes y's near child b. */
  function Rotated(h: Heap, d: bool, x: Id): Heap {
    var y := h.Kid(!d, x);
    var b := h.Kid(d, y);
    Hung(h.SetKid(!d, x, b), d, x, y, h.Parent(x)).SetKid(d, y, x).(parent := Reparented(h.parent, x, y, b, h.Parent(x)))
  }

  /** y takes the place of x under q, or at the root. */
  function Hung(h: Heap, d: bool, x: Id, y: Id, q: Id): Heap {
    if x == h.root then h.(root := y)
    else if x == h.Kid(d, q) then h.SetKid(d, q, y)
    else h.SetKid(!d, q, y)
  }

  function Reparented(parent: map<Id, Id>, x: Id, y: Id, b: Id, q: Id): map<Id, Id> {
    (if b != NIL then parent[b := x] else parent)[y := q][x := y]
  }

  /** Before anything is moved: x has a child y on the far side, whose near child is b, and x is the root or below q. */
  predicate Rotatable(h: Heap, d: bool, x: Id, y: Id, b: Id, q: Id) {
    && y == h.Kid(!d, x) && b == h.Kid(d, y) && q == h.Parent(x)
    && x > 0 && y > 0 && b >= 0 && x != y && b != x && b != y
    && (x != h.root ==> q != x && q != y && q > 0 && y != h.root && b != h.root && (h.Kid(d, q) == x || h.Kid(!d, q) == x))
  }

  /** The parent link of the root, which no descent ever follows. */
  function RootParent(h: Heap): Id { h.Parent(h.root) }

  /** The links down of a node that is in no tree. */
  predicate Unhung(h: Heap, z: Id) { h.Left(z) == NULL && h.Right(z) == NULL }

  /** What changes of the tree leave alone: the root's parent link, and nodes in no tree. */
  ghost predicate Framed(h: Heap, h': Heap) {
    RootParent(h') == RootParent(h) && forall z :: Unhung(h, z) ==> Unhung(h', z)
  }

  predicate CanRotate(h: Heap, d: bool, x: Id) {
    var y := h.Kid(!d, x);
    Rotatable(h, d, x, y, h.Kid(d, y), h.Parent(x))
  }

  lemma RotatedParents(h: Heap, d: bool, x: Id, y: Id, b: Id, q: Id, z: Id)
    requires Rotatable(h, d, x, y, b, q)
    ensures var h' := Rotated(h, d, x);
      && h'.red == h.red && h'.root == (if x == h.root then y else h.root)
      && h'.Parent(z) == (if z == x then y else if z == y then q else if z == b && b != NIL then x else h.Parent(z))
  {
  }

  lemma RotatedKids(h: Heap, d: bool, x: Id, y: Id, b: Id, q: Id, z: Id)
    requires Rotatable(h, d, x, y, b, q)
    ensures var h' := Rotated(h, d, x);
      && (z == x ==> h'.Kid(!d, z) == b && h'.Kid(d, z) == h.Kid(d, z))
      && (z == y ==> h'.Kid(d, z) == x && h'.Kid(!d, z) == h.Kid(!d, z))
      && (z != x && z != y && (x == h.root || z != q) ==> h'.Left(z) == h.Left(z) && h'.Right(z) == h.Right(z))
  {
    if d {} else {}
  }

  /** The node above sees the new root of the rotated part where it saw x. */
  lemma RotatedAbove(h: Heap, d: bool, x: Id, y: Id, b: Id, q: Id)
    requires Rotatable(h, d, x, y, b, q) && x != h.root
    ensures var h' := Rotated(h, d, x);
      if h.Kid(d, q) == x then h'.Kid(d, q) == y && h'.Kid(!d, q) == h.Kid(!d, q)
      else h'.Kid(!d, q) == y && h'.Kid(d, q) == h.Kid(d, q)
  {
    if d {} else {}
  }

  lemma {:induction false} RootInPath(h: Heap, p: Path, focus: Id)
    requires HoldsPath(h, p, focus) && p.Up?
    ensures h.root in PathIds(p)
  {
    if p.up.Up? { RootInPath(h, p.up, p.id); }
  }

  /** A rotation hands the root's parent link on, and leaves nodes that are in no tree alone. */
  lemma RotatedFrame(h: Heap, d: bool, x: Id)
    requires CanRotate(h, d, x)
    ensures Framed(h, Rotated(h, d, x))
  {
    var y := h.Kid(!d, x);
    var b, q := h.Kid(d, y), h.Parent(x);
    RotatedParents(h, d, x, y, b, q, if x == h.root then y else h.root);
    forall z | Unhung(h, z) ensures Unhung(Rotated(h, d, x), z) { RotatedKids(h, d, x, y, b, q, z); }
  }

  /** Nodes other than x, y and the one above keep their links; the root of b gets a new parent. */
  lemma RotatedElsewhere(h: Heap, d: bool, x: Id, y: Id, b: Id, q: Id, ids: set<Id>)
    requires Rotatable(h, d, x, y, b, q) && x !in ids && y !in ids && (x == h.root || q !in ids) && NIL !in ids
    ensures Same(h, Rotated(h, d, x), ids, b)
  {
    forall z | z in ids
      ensures var h' := Rotated(h, d, x);
        && h'.Left(z) == h.Left(z) && h'.Right(z) == h.Right(z) && h'.Red(z) == h.Red(z) && (z != b ==> h'.Parent(z) == h.Parent(z))
    {
      RotatedParents(h, d, x, y, b, q, z);
      RotatedKids(h, d, x, y, b, q, z);
    }
  }

  // A rotation at the focus: Join(d, a, x, cx, Join(d, b, y, cy, c)) becomes Join(d, Join(d, a, x, cx, b), y, cy, c).

  lemma JoinIds(d: bool, t: Tree, x: Id, c: bool, s: Tree)
    ensures Ids(Join(d, t, x, c, s)) == Ids(t) + {x} + Ids(s)
    ensures Proper(Join(d, t, x, c, s)) <==>
              x > 0 && x !in Ids(t) && x !in Ids(s) && Ids(t) !! Ids(s) && Proper(t) && Proper(s)
  {
  }

  predicate HoldsJoin(h: Heap, d: bool, t: Tree, x: Id, c: bool, s: Tree) {
    && h.Kid(d, x) == RootOf(t) && h.Kid(!d, x) == RootOf(s) && h.Red(x) == c
    && (t.Node? ==> h.Parent(t.id) == x) && (s.Node? ==> h.Parent(s.id) == x)
    && Holds(h, t) && Holds(h, s)
  }

  lemma JoinHolds(h: Heap, d: bool, t: Tree, x: Id, c: bool, s: Tree)
    ensures Holds(h, Join(d, t, x, c, s)) <==> HoldsJoin(h, d, t, x, c, s)
  {
  }

  /** Three subtrees, two nodes and a path without common nodes. */
  predicate Apart(a: Tree, x: Id, b: Tree, y: Id, c: Tree, p: Path) {
    && x > 0 && y > 0 && x != y
    && Proper(a) && Proper(b) && Proper(c) && ProperPath(p)
    && x !in Ids(a) + Ids(b) + Ids(c) + PathIds(p) && y !in Ids(a) + Ids(b) + Ids(c) + PathIds(p)
    && Ids(a) !! Ids(b) && Ids(a) !! Ids(c) && Ids(b) !! Ids(c)
    && (Ids(a) + Ids(b) + Ids(c)) !! PathIds(p)
  }

  lemma ZipApart(d: bool, a: Tree, x: Id, cx: bool, b: Tree, y: Id, cy: bool, c: Tree, p: Path)
    ensures Zip(Join(d, a, x, cx, Join(d, b, y, cy, c)), p) <==> Apart(a, x, b, y, c, p)
    ensures Zip(Join(d, Join(d, a, x, cx, b), y, cy, c), p) <==> Apart(a, x, b, y, c, p)
  {
    JoinIds(d, b, y, cy, c);
    JoinIds(d, a, x, cx, Join(d, b, y, cy, c));
    JoinIds(d, a, x, cx, b);
    JoinIds(d, Join(d, a, x, cx, b), y, cy, c);
  }

  /** The links of the three subtrees and the two nodes before the rotation, and of the path. */
  predicate Before2(h: Heap, d: bool, a: Tree, x: Id, cx: bool, b: Tree, y: Id, cy: bool, c: Tree, p: Path) {
    && h.Kid(d, x) == RootOf(a) && h.Kid(!d, x) == y && h.Red(x) == cx && (a.Node? ==> h.Parent(a.id) == x)
    && h.Kid(d, y) == RootOf(b) && h.Kid(!d, y) == RootOf(c) && h.Red(y) == cy && (c.Node? ==> h.Parent(c.id) == y)
    && Holds(h, a) && Holds(h, b) && Holds(h, c)
    && HoldsPath(h, p, x) && (p.Up? ==> h.Parent(x) == p.id)
  }

  lemma RepBefore2(h: Heap, d: bool, a: Tree, x: Id, cx: bool, b: Tree, y: Id, cy: bool, c: Tree, p: Path)
    requires Rep(h, Join(d, a, x, cx, Join(d, b, y, cy, c)), p)
    ensures Before2(h, d, a, x, cx, b, y, cy, c, p)
  {
    JoinHolds(h, d, b, y, cy, c);
    JoinHolds(h, d, a, x, cx, Join(d, b, y, cy, c));
  }

  lemma RotateReady(h: Heap, d: bool, a: Tree, x: Id, cx: bool, b: Tree, y: Id, cy: bool, c: Tree, p: Path)
    requires Before2(h, d, a, x, cx, b, y, cy, c, p) && Apart(a, x, b, y, c, p)
    ensures Rotatable(h, d, x, y, RootOf(b), h.Parent(x))
    ensures p.Top? ==> x == h.root
    ensures p.Up? ==> x != h.root && h.Parent(x) == p.id
  {
    if p.Up? { RootInPath(h, p, x); }
    assert RootOf(b) in Ids(b) + {NIL};
    IdsPositive(b);
    PathIdsPositive(p);
  }

  lemma Subtree(h: Heap, d: bool, x: Id, y: Id, m: Id, q: Id, t: Tree)
    requires Rotatable(h, d, x, y, m, q) && Holds(h, t) && Proper(t) && x !in Ids(t) && y !in Ids(t)
    requires x == h.root || q !in Ids(t)
    requires m !in Ids(t) || m == RootOf(t)
    ensures Holds(Rotated(h, d, x), t)
  {
    IdsPositive(t);
    RotatedElsewhere(h, d, x, y, m, q, Ids(t));
    HoldsSame(h, Rotated(h, d, x), t);
  }

  lemma RotateBelow(h: Heap, d: bool, a: Tree, x: Id, cx: bool, b: Tree, y: Id, cy: bool, c: Tree, p: Path)
    requires Before2(h, d, a, x, cx, b, y, cy, c, p) && Apart(a, x, b, y, c, p)
    ensures Holds(Rotated(h, d, x), Join(d, Join(d, a, x, cx, b), y, cy, c))
  {
    var h', q, m := Rotated(h, d, x), h.Parent(x), RootOf(b);
    RotateReady(h, d, a, x, cx, b, y, cy, c, p);
    RootsApart(a, x, b, y, c, p);
    RotateSubtrees(h, d, a, x, cx, b, y, cy, c, p);
    RotatedLower(h, d, x, y, m, q, RootOf(a));
    RotatedUpper(h, d, x, y, m, q, RootOf(c));
    JoinHolds(h', d, a, x, cx, b);
    JoinHolds(h', d, Join(d, a, x, cx, b), y, cy, c);
  }

  lemma RotateSubtrees(h: Heap, d: bool, a: Tree, x: Id, cx: bool, b: Tree, y: Id, cy: bool, c: Tree, p: Path)
    requires Before2(h, d, a, x, cx, b, y, cy, c, p) && Apart(a, x, b, y, c, p)
    ensures Holds(Rotated(h, d, x), a) && Holds(Rotated(h, d, x), b) && Holds(Rotated(h, d, x), c)
  {
    var q, m := h.Parent(x), RootOf(b);
    RotateReady(h, d, a, x, cx, b, y, cy, c, p);
    RootsApart(a, x, b, y, c, p);
    Subtree(h, d, x, y, m, q, a);
    Subtree(h, d, x, y, m, q, b);
    Subtree(h, d, x, y, m, q, c);
  }

  lemma RotatedLower(h: Heap, d: bool, x: Id, y: Id, m: Id, q: Id, z: Id)
    requires Rotatable(h, d, x, y, m, q) && z != x && z != y && (z == m ==> z == NIL)
    ensures var h' := Rotated(h, d, x);
      && h'.Kid(d, x) == h.Kid(d, x) && h'.Kid(!d, x) == m && h'.Red(x) == h.Red(x)
      && h'.Parent(z) == h.Parent(z) && (m != NIL ==> h'.Parent(m) == x)
  {
    RotatedKids(h, d, x, y, m, q, x);
    RotatedParents(h, d, x, y, m, q, z);
    RotatedParents(h, d, x, y, m, q, m);
    RotatedParents(h, d, x, y, m, q, x);
  }

  lemma RotatedUpper(h: Heap, d: bool, x: Id, y: Id, m: Id, q: Id, z: Id)
    requires Rotatable(h, d, x, y, m, q) && z != x && z != y && (z == m ==> z == NIL)
    ensures var h' := Rotated(h, d, x);
      && h'.Kid(d, y) == x && h'.Kid(!d, y) == h.Kid(!d, y) && h'.Red(y) == h.Red(y)
      && h'.Parent(z) == h.Parent(z) && h'.Parent(x) == y
  {
    RotatedKids(h, d, x, y, m, q, y);
    RotatedParents(h, d, x, y, m, q, z);
    RotatedParents(h, d, x, y, m, q, x);
    RotatedParents(h, d, x, y, m, q, y);
  }

  lemma RootsApart(a: Tree, x: Id, b: Tree, y: Id, c: Tree, p: Path)
    requires Apart(a, x, b, y, c, p)
    ensures RootOf(a) != x && RootOf(a) != y && RootOf(b) != x && RootOf(b) != y && RootOf(c) != x && RootOf(c) != y
    ensures b.Node? ==> RootOf(b) !in Ids(a) && RootOf(b) !in Ids(c) && RootOf(a) != RootOf(b) && RootOf(c) != RootOf(b)
    ensures p.Up? ==> p.id !in Ids(a) && p.id !in Ids(b) && p.id !in Ids(c)
    ensures NIL !in Ids(a) && NIL !in Ids(b) && NIL !in Ids(c)
  {
    IdsPositive(a);
    IdsPositive(b);
    IdsPositive(c);
    assert RootOf(a) in Ids(a) + {NIL} && RootOf(b) in Ids(b) + {NIL} && RootOf(c) in Ids(c) + {NIL};
    assert p.Up? ==> p.id in PathIds(p);
  }

  lemma RotateAbove(h: Heap, d: bool, a: Tree, x: Id, cx: bool, b: Tree, y: Id, cy: bool, c: Tree, p: Path)
    requires Before2(h, d, a, x, cx, b, y, cy, c, p) && Apart(a, x, b, y, c, p)
    ensures HoldsPath(Rotated(h, d, x), p, y) && (p.Up? ==> Rotated(h, d, x).Parent(y) == p.id)
  {
    RotateReady(h, d, a, x, cx, b, y, cy, c, p);
    RotatedParents(h, d, x, y, RootOf(b), h.Parent(x), y);
    if p.Up? {
      assert RootOf(b) in Ids(b) + {NIL};
      PathIdsPositive(p);
      RotateUnder(h, d, x, y, RootOf(b), p);
    }
  }

  /** The path above a rotation below its first node. */
  lemma RotateUnder(h: Heap, d: bool, x: Id, y: Id, m: Id, p: Path)
    requires p.Up? && Rotatable(h, d, x, y, m, p.id) && x != h.root && HoldsPath(h, p, x) && ProperPath(p)
    requires x !in PathIds(p) && y !in PathIds(p) && m !in PathIds(p)
    ensures HoldsPath(Rotated(h, d, x), p, y)
  {
    var h', g, s, up := Rotated(h, d, x), p.id, p.sibling, p.up;
    IdsPositive(s);
    PathIdsPositive(up);
    RotatedElsewhere(h, d, x, y, m, g, Ids(s));
    RotatedElsewhere(h, d, x, y, m, g, PathIds(up));
    HoldsSame(h, h', s);
    RotatedParents(h, d, x, y, m, g, g);
    PathSame(h, h', up, g);
    SiblingApart(p, x);
    RotatedAbove(h, d, x, y, m, g);
    RotatedParents(h, d, x, y, m, g, RootOf(s));
  }

  lemma SiblingApart(p: Path, x: Id)
    requires p.Up? && ProperPath(p) && x > 0 && x !in PathIds(p)
    ensures RootOf(p.sibling) != x && (p.sibling.Node? ==> RootOf(p.sibling) in PathIds(p)) && p.id != RootOf(p.sibling)
  {
    assert RootOf(p.sibling) in Ids(p.sibling) + {NIL};
  }

  /** A rotation of the tree at the focus is done by Rotated on the links. */
  lemma RotateRep(h: Heap, d: bool, a: Tree, x: Id, cx: bool, b: Tree, y: Id, cy: bool, c: Tree, p: Path)
    requires Rep(h, Join(d, a, x, cx, Join(d, b, y, cy, c)), p) && Zip(Join(d, a, x, cx, Join(d, b, y, cy, c)), p)
    ensures CanRotate(h, d, x) && Rep(Rotated(h, d, x), Join(d, Join(d, a, x, cx, b), y, cy, c), p)
    ensures Zip(Join(d, Join(d, a, x, cx, b), y, cy, c), p)
  {
    ZipApart(d, a, x, cx, b, y, cy, c, p);
    RepBefore2(h, d, a, x, cx, b, y, cy, c, p);
    RotateReady(h, d, a, x, cx, b, y, cy, c, p);
    RotateBelow(h, d, a, x, cx, b, y, cy, c, p);
    RotateAbove(h, d, a, x, cx, b, y, cy, c, p);
  }

  lemma {:induction false} PathIdsPositive(p: Path)
    requires ProperPath(p)
    ensures forall x :: x in PathIds(p) ==> x > 0
  {
    if p.Up? {
      IdsPositive(p.sibling);
      PathIdsPositive(p.up);
    }
  }

  lemma Refocus(h: Heap, h': Heap, p: Path, f: Id, f': Id)
    requires p.Up? && HoldsPath(h, p, f) && ProperPath(p) && h'.root == h.root
    requires Same(h, h', PathIds(p.up) + Ids(p.sibling), NIL)
    requires h'.Kid(p.toLeft, p.id) == f' && h'.Kid(!p.toLeft, p.id) == h.Kid(!p.toLeft, p.id)
    requires h'.Red(p.id) == h.Red(p.id) && h'.Parent(p.id) == h.Parent(p.id)
    ensures HoldsPath(h', p, f')
  {
    IdsPositive(p.sibling);
    PathIdsPositive(p.up);
    assert RootOf(p.sibling) in Ids(p.sibling) + {NIL};
    HoldsSame(h, h', p.sibling);
    PathSame(h, h', p.up, p.id);
  }
}
