/** Repairing the tree after a node has been taken out: the focus is one black node short. */
module RBDelete {
  import opened RBShape
  import opened RBColor

  /** Below the focus' root all is calm; the focus has one black node less than its place asks for. */
  predicate Short(t: Tree, p: Path) {
    && Even(t) && (t.Node? ==> Calm(t.left) && Calm(t.right))
    && PathEven(p, Height(t) + 1) && PathCalm(p)
  }

  /** In the repair loop; the parent of the focus is stored even when the focus is the sentinel. */
  ghost predicate Erasing(h: Heap, t: Tree, p: Path, order: seq<Id>) {
    && Good(h, t, p) && Short(t, p) && Inorder(Plug(t, p)) == order && !h.Red(NIL)
    && (p.Up? ==> h.Parent(RootOf(t)) == p.id)
  }

  /** What is left to do: nothing once the focus is red or at the root. */
  function Work(t: Tree, p: Path): nat { if p.Up? && !RedRoot(t) then 1 + Depth(p) else 0 }

  lemma SiblingIsNode(t: Tree, p: Path)
    requires Short(t, p) && p.Up?
    ensures p.sibling.Node?
  {
    assert Height(p.sibling) == Height(t) + 1;
  }

  function Near(d: bool, t: Tree): Tree
    requires t.Node?
  {
    if d then t.left else t.right
  }

  lemma NearFar(d: bool, t: Tree)
    requires t.Node?
    ensures t == Join(d, Near(d, t), t.id, t.red, Near(!d, t))
  {
  }

  lemma RotatedSentinel(h: Heap, d: bool, x: Id)
    requires CanRotate(h, d, x)
    ensures Rotated(h, d, x).Parent(NIL) == h.Parent(NIL) && Rotated(h, d, x).red == h.red
  {
    var y := h.Kid(!d, x);
    RotatedParents(h, d, x, y, h.Kid(d, y), h.Parent(x), NIL);
  }

  /** A focus that is a real node has its parent stored as the path says. */
  lemma ParentStored(h: Heap, h': Heap, t: Tree, p: Path, p': Path)
    requires Good(h', t, p') && p.Up? && p'.Up? && p'.id == p.id && h.Parent(RootOf(t)) == p.id && h'.Parent(NIL) == h.Parent(NIL)
    ensures h'.Parent(RootOf(t)) == p'.id
  {
  }

  // ----- sibling red

  /** The path after its rotation. */
  function AfterRed(p: Path): Path
    requires p.Up? && p.sibling.Node?
  {
    var d, s := p.toLeft, p.sibling;
    Up(d, p.id, true, Near(d, s), Up(d, s.id, false, Near(!d, s), p.up))
  }

  lemma RedSiblingLinks(h: Heap, t: Tree, d: bool, q: Id, a: Tree, w: Id, b: Tree, up: Path)
    requires Good(h, t, Up(d, q, false, Join(d, a, w, true, b), up))
    ensures var h1 := h.Paint(w, false).Paint(q, true);
      CanRotate(h1, d, q) && Good(Rotated(h1, d, q), t, Up(d, q, true, a, Up(d, w, false, b, up)))
  {
    var s, h1, h2 := Join(d, a, w, false, b), h.Paint(w, false), h.Paint(w, false).Paint(q, true);
    PaintSibling(h, t, d, q, false, d, a, w, true, b, up, false);
    PaintAbove(h1, t, d, q, false, s, up, true);
    GoodUp(h2, t, d, q, true, s, up);
    RotateFocus(h2, d, t, q, true, a, w, false, b, up);
    GoodUp(Rotated(h2, d, q), Join(d, t, q, true, a), d, w, false, b, up);
    GoodUp(Rotated(h2, d, q), t, d, q, true, a, Up(d, w, false, b, up));
  }

  lemma RedSiblingColors(t: Tree, d: bool, q: Id, a: Tree, w: Id, b: Tree, up: Path)
    requires Short(t, Up(d, q, false, Join(d, a, w, true, b), up))
    ensures Short(t, Up(d, q, true, a, Up(d, w, false, b, up))) && !RedRoot(a) && a.Node?
    ensures Inorder(Plug(t, Up(d, q, true, a, Up(d, w, false, b, up)))) ==
            Inorder(Plug(t, Up(d, q, false, Join(d, a, w, true, b), up)))
  {
    JoinColor(d, a, w, true, b);
    RotateOrder(d, t, q, false, a, w, true, b, true, false);
    SameOrder(Join(d, t, q, false, Join(d, a, w, true, b)), Join(d, Join(d, t, q, true, a), w, false, b), up);
    assert PathEven(Up(d, w, false, b, up), Height(t) + 1) && PathCalm(Up(d, w, false, b, up));
  }

  lemma RedSibling(h: Heap, t: Tree, p: Path, order: seq<Id>)
    requires Erasing(h, t, p, order) && p.Up? && RedRoot(p.sibling) && p.id > 0 && p.sibling.id > 0
    ensures var h1 := h.Paint(p.sibling.id, false).Paint(p.id, true);
      CanRotate(h1, p.toLeft, p.id) && Erasing(Rotated(h1, p.toLeft, p.id), t, AfterRed(p), order)
    ensures AfterRed(p).sibling.Node? && !AfterRed(p).sibling.red
  {
    var d, q, s, up := p.toLeft, p.id, p.sibling, p.up;
    NearFar(d, s);
    var h1 := h.Paint(s.id, false).Paint(q, true);
    RedSiblingLinks(h, t, d, q, Near(d, s), s.id, Near(!d, s), up);
    RedSiblingColors(t, d, q, Near(d, s), s.id, Near(!d, s), up);
    RotatedSentinel(h1, d, q);
    ParentStored(h, Rotated(h1, d, q), t, p, AfterRed(p));
  }

  // ----- sibling black with black children

  /** The focus then goes up, with the sibling red. */
  function AfterBlack(t: Tree, p: Path): Tree
    requires p.Up? && p.sibling.Node?
  {
    var s := p.sibling;
    Join(p.toLeft, t, p.id, p.red, Node(s.left, s.id, true, s.right))
  }

  lemma BlackSiblingLinks(h: Heap, t: Tree, p: Path)
    requires Good(h, t, p) && p.Up? && p.sibling.Node?
    ensures Good(h.Paint(p.sibling.id, true), AfterBlack(t, p), p.up)
  {
    var d, q, c, s, up := p.toLeft, p.id, p.red, p.sibling, p.up;
    PaintSibling(h, t, d, q, c, true, s.left, s.id, s.red, s.right, up, true);
    GoodUp(h.Paint(s.id, true), t, d, q, c, Node(s.left, s.id, true, s.right), up);
  }

  lemma BlackSiblingColors(t: Tree, p: Path)
    requires Short(t, p) && p.Up? && !RedRoot(t) && p.sibling.Node? && !p.sibling.red
    requires !RedRoot(p.sibling.left) && !RedRoot(p.sibling.right)
    ensures Short(AfterBlack(t, p), p.up) && Inorder(Plug(AfterBlack(t, p), p.up)) == Inorder(Plug(t, p))
  {
    var d, q, c, s, up := p.toLeft, p.id, p.red, p.sibling, p.up;
    var s' := Node(s.left, s.id, true, s.right);
    JoinColor(true, s.left, s.id, false, s.right);
    JoinColor(true, s.left, s.id, true, s.right);
    JoinColor(d, t, q, c, s');
    JoinOrder(d, t, t, q, c, c, s, s');
    SameOrder(Join(d, t, q, c, s), Join(d, t, q, c, s'), up);
  }

  lemma BlackSibling(h: Heap, t: Tree, p: Path, order: seq<Id>)
    requires Erasing(h, t, p, order) && p.Up? && !RedRoot(t) && p.sibling.Node? && !p.sibling.red && p.sibling.id > 0
    requires !RedRoot(p.sibling.left) && !RedRoot(p.sibling.right)
    ensures Erasing(h.Paint(p.sibling.id, true), AfterBlack(t, p), p.up, order)
  {
    BlackSiblingLinks(h, t, p);
    BlackSiblingColors(t, p);
  }

  // ----- sibling black, its far child black, its near child red

  /** The path after the rotation at the sibling. */
  function AfterNear(p: Path): Path
    requires p.Up? && p.sibling.Node? && Near(p.toLeft, p.sibling).Node?
  {
    var d, s := p.toLeft, p.sibling;
    var n := Near(d, s);
    p.(sibling := Join(d, Near(d, n), n.id, false, Join(d, Near(!d, n), s.id, true, Near(!d, s))))
  }

  lemma NearRedLinks(h: Heap, t: Tree, d: bool, q: Id, c: bool, a: Tree, n: Id, b: Tree, w: Id, f: Tree, up: Path)
    requires Good(h, t, Up(d, q, c, Join(d, Join(d, a, n, true, b), w, false, f), up))
    ensures var h1 := h.Paint(n, false).Paint(w, true);
      && CanRotate(h1, !d, w)
      && Good(Rotated(h1, !d, w), t, Up(d, q, c, Join(d, a, n, false, Join(d, b, w, true, f)), up))
  {
    var p, s := Up(!d, q, c, t, up), Join(d, Join(d, a, n, true, b), w, false, f);
    var h1, h2 := h.Paint(n, false), h.Paint(n, false).Paint(w, true);
    GoodAcross(h, t, d, q, c, s, up);
    GoodUp(h, Join(d, a, n, true, b), d, w, false, f, p);
    PaintFocus(h, d, a, n, true, b, Up(d, w, false, f, p), false);
    PaintAbove(h1, Join(d, a, n, false, b), d, w, false, f, p, true);
    GoodUp(h2, Join(d, a, n, false, b), d, w, true, f, p);
    Flip(d, Join(d, a, n, false, b), w, true, f);
    Flip(d, f, w, true, Join(d, a, n, false, b));
    Flip(d, b, n, false, a);
    RotateFocus(h2, !d, f, w, true, b, n, false, a, p);
    Flip(d, f, w, true, b);
    Flip(d, Join(d, b, w, true, f), n, false, a);
    GoodAcross(Rotated(h2, !d, w), t, d, q, c, Join(d, a, n, false, Join(d, b, w, true, f)), up);
  }

  lemma NearRedColors(t: Tree, d: bool, q: Id, c: bool, a: Tree, n: Id, b: Tree, w: Id, f: Tree, up: Path)
    requires Short(t, Up(d, q, c, Join(d, Join(d, a, n, true, b), w, false, f), up)) && !RedRoot(f)
    ensures Short(t, Up(d, q, c, Join(d, a, n, false, Join(d, b, w, true, f)), up))
    ensures Inorder(Plug(t, Up(d, q, c, Join(d, a, n, false, Join(d, b, w, true, f)), up))) ==
            Inorder(Plug(t, Up(d, q, c, Join(d, Join(d, a, n, true, b), w, false, f), up)))
  {
    var s, s' := Join(d, Join(d, a, n, true, b), w, false, f), Join(d, a, n, false, Join(d, b, w, true, f));
    JoinColor(d, a, n, true, b);
    JoinColor(d, Join(d, a, n, true, b), w, false, f);
    JoinColor(d, b, w, true, f);
    JoinColor(d, a, n, false, Join(d, b, w, true, f));
    RotateOrder(d, a, n, false, b, w, true, f, true, false);
    JoinOrder(d, t, t, q, c, c, s, s');
    SameOrder(Join(d, t, q, c, s), Join(d, t, q, c, s'), up);
  }

  function NearPainted(h: Heap, p: Path): Heap
    requires p.Up? && p.sibling.Node? && Near(p.toLeft, p.sibling).Node?
  {
    h.Paint(Near(p.toLeft, p.sibling).id, false).Paint(p.sibling.id, true)
  }

  lemma NearRedGood(h: Heap, t: Tree, p: Path)
    requires Good(h, t, p) && p.Up? && p.sibling.Node? && !p.sibling.red && RedRoot(Near(p.toLeft, p.sibling))
    ensures CanRotate(NearPainted(h, p), !p.toLeft, p.sibling.id)
    ensures Good(Rotated(NearPainted(h, p), !p.toLeft, p.sibling.id), t, AfterNear(p))
  {
    var d, s := p.toLeft, p.sibling;
    var n := Near(d, s);
    NearFar(d, s);
    NearFar(d, n);
    NearRedLinks(h, t, d, p.id, p.red, Near(d, n), n.id, Near(!d, n), s.id, Near(!d, s), p.up);
  }

  lemma NearRedShort(t: Tree, p: Path)
    requires Short(t, p) && p.Up? && p.sibling.Node? && !p.sibling.red
    requires RedRoot(Near(p.toLeft, p.sibling)) && !RedRoot(Near(!p.toLeft, p.sibling))
    ensures Short(t, AfterNear(p)) && Inorder(Plug(t, AfterNear(p))) == Inorder(Plug(t, p))
  {
    var d, s := p.toLeft, p.sibling;
    var n := Near(d, s);
    NearFar(d, s);
    NearFar(d, n);
    NearRedColors(t, d, p.id, p.red, Near(d, n), n.id, Near(!d, n), s.id, Near(!d, s), p.up);
  }

  lemma NearRed(h: Heap, t: Tree, p: Path, order: seq<Id>)
    requires Erasing(h, t, p, order) && p.Up? && p.sibling.Node? && !p.sibling.red && p.sibling.id > 0
    requires RedRoot(Near(p.toLeft, p.sibling)) && Near(p.toLeft, p.sibling).id > 0 && !RedRoot(Near(!p.toLeft, p.sibling))
    ensures CanRotate(NearPainted(h, p), !p.toLeft, p.sibling.id)
    ensures Erasing(Rotated(NearPainted(h, p), !p.toLeft, p.sibling.id), t, AfterNear(p), order)
  {
    var h1, w := NearPainted(h, p), p.sibling.id;
    NearRedGood(h, t, p);
    NearRedShort(t, p);
    RotatedSentinel(h1, !p.toLeft, w);
    ParentStored(h, Rotated(h1, !p.toLeft, w), t, p, AfterNear(p));
  }

  // ----- sibling black, its far child red: the last rotation

  /** The whole tree after it. */
  function AfterFar(t: Tree, p: Path): Tree
    requires p.Up? && p.sibling.Node? && Near(!p.toLeft, p.sibling).Node?
  {
    var d, s := p.toLeft, p.sibling;
    var f := Near(!d, s);
    Plug(Join(d, Join(d, t, p.id, false, Near(d, s)), s.id, p.red, Node(f.left, f.id, false, f.right)), p.up)
  }

  lemma FarRedLinks(h: Heap, t: Tree, d: bool, q: Id, c: bool, a: Tree, w: Id, l: Tree, f: Id, r: Tree, up: Path)
    requires Good(h, t, Up(d, q, c, Join(d, a, w, false, Node(l, f, true, r)), up))
    ensures var h1 := h.Paint(w, c).Paint(q, false).Paint(f, false);
      CanRotate(h1, d, q) && Good(Rotated(h1, d, q), Join(d, Join(d, t, q, false, a), w, c, Node(l, f, false, r)), up)
  {
    var far := Node(l, f, true, r);
    var h1, h2, h3 := h.Paint(w, c), h.Paint(w, c).Paint(q, false), h.Paint(w, c).Paint(q, false).Paint(f, false);
    PaintSibling(h, t, d, q, c, d, a, w, false, far, up, c);
    PaintAbove(h1, t, d, q, c, Join(d, a, w, c, far), up, false);
    GoodAcross(h2, t, d, q, false, Join(d, a, w, c, far), up);
    var p := Up(!d, q, false, t, up);
    GoodUp(h2, a, d, w, c, far, p);
    PaintSibling(h2, a, d, w, c, true, l, f, true, r, p, false);
    GoodUp(h3, a, d, w, c, Node(l, f, false, r), p);
    GoodAcross(h3, t, d, q, false, Join(d, a, w, c, Node(l, f, false, r)), up);
    GoodUp(h3, t, d, q, false, Join(d, a, w, c, Node(l, f, false, r)), up);
    RotateFocus(h3, d, t, q, false, a, w, c, Node(l, f, false, r), up);
  }

  lemma FarRedColors(t: Tree, d: bool, q: Id, c: bool, a: Tree, w: Id, l: Tree, f: Id, r: Tree, up: Path)
    requires Short(t, Up(d, q, c, Join(d, a, w, false, Node(l, f, true, r)), up)) && !RedRoot(t)
    ensures RedBlack(Plug(Join(d, Join(d, t, q, false, a), w, c, Node(l, f, false, r)), up))
    ensures Inorder(Plug(Join(d, Join(d, t, q, false, a), w, c, Node(l, f, false, r)), up)) ==
            Inorder(Plug(t, Up(d, q, c, Join(d, a, w, false, Node(l, f, true, r)), up)))
  {
    var far, far' := Node(l, f, true, r), Node(l, f, false, r);
    var s, t' := Join(d, a, w, false, far), Join(d, Join(d, t, q, false, a), w, c, far');
    JoinColor(true, l, f, true, r);
    JoinColor(true, l, f, false, r);
    JoinColor(d, a, w, false, far);
    JoinColor(d, t, q, false, a);
    JoinColor(d, Join(d, t, q, false, a), w, c, far');
    PlugColor(t', up);
    JoinOrder(d, a, a, w, false, false, far, far');
    JoinOrder(d, t, t, q, c, c, s, Join(d, a, w, false, far'));
    RotateOrder(d, t, q, c, a, w, false, far', false, c);
    SameOrder(Join(d, t, q, c, s), t', up);
  }

  function FarPainted(h: Heap, p: Path): Heap
    requires p.Up? && p.sibling.Node? && Near(!p.toLeft, p.sibling).Node?
  {
    h.Paint(p.sibling.id, p.red).Paint(p.id, false).Paint(Near(!p.toLeft, p.sibling).id, false)
  }

  lemma FarRedGood(h: Heap, t: Tree, p: Path)
    requires Good(h, t, p) && p.Up? && p.sibling.Node? && !p.sibling.red && RedRoot(Near(!p.toLeft, p.sibling))
    ensures CanRotate(FarPainted(h, p), p.toLeft, p.id) && Good(Rotated(FarPainted(h, p), p.toLeft, p.id), AfterFar(t, p), Top)
  {
    var d, s := p.toLeft, p.sibling;
    var n, f := Near(d, s), Near(!d, s);
    NearFar(d, s);
    FarRedLinks(h, t, d, p.id, p.red, n, s.id, f.left, f.id, f.right, p.up);
    GoodTop(Rotated(FarPainted(h, p), d, p.id),
            Join(d, Join(d, t, p.id, false, n), s.id, p.red, Node(f.left, f.id, false, f.right)), p.up);
  }

  lemma FarRedBlack(t: Tree, p: Path)
    requires Short(t, p) && p.Up? && !RedRoot(t) && p.sibling.Node? && !p.sibling.red && RedRoot(Near(!p.toLeft, p.sibling))
    ensures RedBlack(AfterFar(t, p)) && Inorder(AfterFar(t, p)) == Inorder(Plug(t, p))
  {
    var d, s := p.toLeft, p.sibling;
    var n, f := Near(d, s), Near(!d, s);
    NearFar(d, s);
    FarRedColors(t, d, p.id, p.red, n, s.id, f.left, f.id, f.right, p.up);
  }

  lemma FarRed(h: Heap, t: Tree, p: Path, order: seq<Id>)
    requires Erasing(h, t, p, order) && p.Up? && !RedRoot(t) && p.sibling.Node? && !p.sibling.red && p.sibling.id > 0
    requires RedRoot(Near(!p.toLeft, p.sibling)) && Near(!p.toLeft, p.sibling).id > 0 && p.id > 0
    ensures CanRotate(FarPainted(h, p), p.toLeft, p.id)
    ensures Erasing(Rotated(FarPainted(h, p), p.toLeft, p.id), AfterFar(t, p), Top, order)
  {
    FarRedGood(h, t, p);
    FarRedBlack(t, p);
    RotatedSentinel(FarPainted(h, p), p.toLeft, p.id);
  }

  // ----- the end of the loop

  lemma Erased(h: Heap, t: Tree, p: Path, order: seq<Id>)
    requires Erasing(h, t, p, order) && (p.Top? || RedRoot(t))
    ensures var whole := Plug(Blackened(t), p);
      Good(h.Paint(RootOf(t), false), whole, Top) && RedBlack(whole) && Inorder(whole) == order
    ensures !h.Paint(RootOf(t), false).Red(NIL)
  {
    var t', h' := Blackened(t), h.Paint(RootOf(t), false);
    if t.Node? {
      PaintFocus(h, true, t.left, t.id, t.red, t.right, p, false);
    } else {
      PaintSentinel(h, p);
    }
    GoodTop(h', t', p);
    SameOrder(t, t', p);
    PlugColor(t', p);
  }

  lemma PaintSentinel(h: Heap, p: Path)
    requires Good(h, Leaf, p)
    ensures Good(h.Paint(NIL, false), Leaf, p)
  {
    PathIdsPositive(p);
    PaintSame(h, NIL, false, PathIds(p), NIL);
    PathSame(h, h.Paint(NIL, false), p, NIL);
  }

  // ----- taking a node with at most one child out

  function Cleared(h: Heap, x: Id): Heap { h.SetKid(true, x, NULL).SetKid(false, x, NULL).SetParent(x, NULL) }

  /** The child m of x takes its place below q. */
  function Unlinked(h: Heap, d: bool, q: Id, x: Id, m: Id): Heap { Cleared(h.SetKid(d, q, m).SetParent(m, q), x) }

  lemma UnlinkedLinks(h: Heap, d: bool, q: Id, x: Id, m: Id)
    requires q != x && x != m && q != m
    ensures var h' := Unlinked(h, d, q, x, m);
      && h'.root == h.root && h'.red == h.red && h'.Kid(d, q) == m && h'.Kid(!d, q) == h.Kid(!d, q)
      && h'.Parent(q) == h.Parent(q) && h'.Parent(m) == q && h'.Left(x) == NULL
  {
  }

  lemma UnlinkedSame(h: Heap, d: bool, q: Id, x: Id, m: Id, ids: set<Id>)
    requires x !in ids && q !in ids
    ensures Same(h, Unlinked(h, d, q, x, m), ids, m)
  {
  }

  lemma UnlinkRep(h: Heap, e: bool, x: Id, c: bool, r: Tree, p: Path)
    requires p.Up? && Good(h, Join(e, Leaf, x, c, r), p)
    ensures var h' := Unlinked(h, p.toLeft, p.id, x, RootOf(r)); Good(h', r, p) && h'.Parent(RootOf(r)) == p.id
  {
    var q, m := p.id, RootOf(r);
    var h' := Unlinked(h, p.toLeft, q, x, m);
    JoinIds(e, Leaf, x, c, r);
    JoinHolds(h, e, Leaf, x, c, r);
    IdsPositive(r);
    PathIdsPositive(p);
    assert m in Ids(r) + {NIL} && q in PathIds(p);
    UnlinkedLinks(h, p.toLeft, q, x, m);
    UnlinkedSame(h, p.toLeft, q, x, m, Ids(r));
    UnlinkedSame(h, p.toLeft, q, x, m, PathIds(p.up) + Ids(p.sibling));
    HoldsSame(h, h', r);
    Refocus(h, h', p, x, m);
  }

  /** The root x goes, and its only child m becomes the root, black. */
  function Uprooted(h: Heap, x: Id, m: Id): Heap { Cleared(h.(root := m).Paint(m, false), x) }

  lemma UprootRep(h: Heap, e: bool, x: Id, c: bool, r: Tree)
    requires Good(h, Join(e, Leaf, x, c, r), Top) && !h.Red(NIL)
    ensures var h' := Uprooted(h, x, RootOf(r)); Good(h', Blackened(r), Top) && !h'.Red(NIL)
  {
    var h1, h2 := h.(root := RootOf(r)), h.(root := RootOf(r)).Paint(RootOf(r), false);
    JoinIds(e, Leaf, x, c, r);
    JoinHolds(h, e, Leaf, x, c, r);
    HoldsSame(h, h1, r);
    if r.Node? { PaintFocus(h1, true, r.left, r.id, r.red, r.right, Top, false); }
    assert Ids(Blackened(r)) == Ids(r);
    ClearedSame(h2, x, Ids(r));
    HoldsSame(h2, Cleared(h2, x), Blackened(r));
  }

  lemma ClearedSame(h: Heap, x: Id, ids: set<Id>)
    requires x !in ids
    ensures forall but :: Same(h, Cleared(h, x), ids, but)
  {
  }

  /** What the colours are after the unlinking. */
  lemma UnlinkColors(e: bool, x: Id, c: bool, r: Tree, p: Path)
    requires RedBlack(Plug(Join(e, Leaf, x, c, r), p))
    ensures p.Top? ==> RedBlack(Blackened(r))
    ensures c ==> RedBlack(Plug(r, p))
    ensures !c ==> Short(r, p)
  {
    Unplug(Join(e, Leaf, x, c, r), p);
    JoinColor(e, Leaf, x, c, r);
    if c {
      PlugColor(r, p);
    }
  }

  // ----- the order without x

  function Without(s: seq<Id>, x: Id): seq<Id> {
    if s == [] then [] else if s[0] == x then s[1..] else [s[0]] + Without(s[1..], x)
  }

  lemma {:induction false} WithoutMiddle(a: seq<Id>, x: Id, b: seq<Id>)
    requires x !in a
    ensures Without(a + [x] + b, x) == a + b
  {
    if a == [] {
      assert a + [x] + b == [x] + b;
    } else {
      assert (a + [x] + b)[1..] == a[1..] + [x] + b;
      WithoutMiddle(a[1..], x, b);
    }
  }

  lemma {:induction false} InorderIds(t: Tree)
    ensures forall y :: y in Inorder(t) <==> y in Ids(t)
  {
    if t.Node? {
      InorderIds(t.left);
      InorderIds(t.right);
    }
  }

  lemma {:induction false} BeforeIds(p: Path)
    ensures forall y :: y in Before(p) ==> y in PathIds(p)
  {
    if p.Up? {
      InorderIds(p.sibling);
      BeforeIds(p.up);
    }
  }

  lemma UnlinkOrder(e: bool, x: Id, c: bool, r: Tree, p: Path)
    requires Zip(Join(e, Leaf, x, c, r), p)
    ensures Inorder(Plug(r, p)) == Without(Inorder(Plug(Join(e, Leaf, x, c, r), p)), x)
  {
    PlugInorder(r, p);
    PlugInorder(Join(e, Leaf, x, c, r), p);
    OnlyHere(e, x, c, r, p);
    WithoutBetween(Before(p), x, Inorder(r), After(p));
  }

  lemma OnlyHere(e: bool, x: Id, c: bool, r: Tree, p: Path)
    requires Zip(Join(e, Leaf, x, c, r), p)
    ensures x !in Before(p) && x !in Inorder(r)
    ensures Inorder(Join(e, Leaf, x, c, r)) == if e then [x] + Inorder(r) else Inorder(r) + [x]
  {
    JoinIds(e, Leaf, x, c, r);
    BeforeIds(p);
    InorderIds(r);
    assert x in Ids(Join(e, Leaf, x, c, r)) && Inorder(Leaf) == [];
  }

  lemma WithoutBetween(a: seq<Id>, x: Id, m: seq<Id>, b: seq<Id>)
    requires x !in a && x !in m
    ensures Without(a + ([x] + m) + b, x) == a + m + b == Without(a + (m + [x]) + b, x)
  {
    assert a + ([x] + m) + b == a + [x] + (m + b);
    WithoutMiddle(a, x, m + b);
    assert a + (m + b) == a + m + b;
    assert a + (m + [x]) + b == a + m + [x] + b;
    WithoutMiddle(a + m, x, b);
  }

  /** What the links say about a focus on a node with at most one child. */
  lemma ReadFocus(h: Heap, t: Tree, p: Path)
    requires Good(h, t, p)
    ensures h.root == RootOf(t) <==> p.Top?
    ensures p.Up? ==> p.id > 0 && h.Red(p.id) == p.red && (h.Left(p.id) == RootOf(t) && p.sibling.Node? ==> p.toLeft)
    ensures p.Up? && p.toLeft ==> h.Left(p.id) == RootOf(t)
    ensures p.Up? && t.Node? ==> h.Parent(t.id) == p.id && (h.Left(p.id) == t.id <==> p.toLeft)
    ensures t.Node? ==> (t.left.Leaf? <==> h.Left(t.id) == NIL) && (t.right.Leaf? <==> h.Right(t.id) == NIL)
    ensures t.Node? ==> t.id > 0 && h.Left(t.id) == RootOf(t.left) >= 0 && h.Right(t.id) == RootOf(t.right) >= 0 && h.Red(t.id) == t.red
  {
    if p.Up? {
      RootInPath(h, p, RootOf(t));
      PathIdsPositive(p);
      IdsPositive(t);
      assert RootOf(p.sibling) in Ids(p.sibling) + {NIL} && RootOf(t) in Ids(t) + {NIL} && p.id in PathIds(p);
    }
    if t.Node? {
      assert t.id in Ids(t);
      IdsPositive(t.left);
      IdsPositive(t.right);
      assert RootOf(t.left) in Ids(t.left) + {NIL} && RootOf(t.right) in Ids(t.right) + {NIL};
    }
  }

  /** What the links say about the sibling of a focus. */
  lemma ReadSibling(h: Heap, t: Tree, p: Path)
    requires Good(h, t, p) && p.Up? && p.sibling.Node? && !h.Red(NIL)
    ensures var s := p.sibling;
      && h.Kid(!p.toLeft, p.id) == s.id > 0 && h.Red(s.id) == s.red
      && h.Left(s.id) == RootOf(s.left) && h.Right(s.id) == RootOf(s.right)
      && h.Red(RootOf(s.left)) == RedRoot(s.left) && h.Red(RootOf(s.right)) == RedRoot(s.right)
      && (s.left.Node? ==> s.left.id > 0) && (s.right.Node? ==> s.right.id > 0)
  {
    var s := p.sibling;
    GoodAcross(h, t, p.toLeft, p.id, p.red, s, p.up);
    assert Holds(h, s) && Proper(s);
    assert Proper(s.left) && Proper(s.right) && Holds(h, s.left) && Holds(h, s.right);
  }

  /** The focus on a node x of a tree, seen as x and its only child. */
  lemma OneChildIs(h: Heap, t: Tree, p: Path, e: bool, r: Tree)
    requires Good(h, t, p) && t.Node? && RedBlack(Plug(t, p))
    requires e == (h.Left(t.id) == NIL) && r == (if e then t.right else t.left) && (e || h.Right(t.id) == NIL)
    ensures t == Join(e, Leaf, t.id, t.red, r) && RootOf(r) == (if e then h.Right(t.id) else h.Left(t.id))
    ensures p.Top? ==> RedBlack(Blackened(r))
    ensures if t.red then RedBlack(Plug(r, p)) else Short(r, p)
    ensures Inorder(Plug(r, p)) == Without(Inorder(Plug(t, p)), t.id)
  {
    ReadFocus(h, t, p);
    UnlinkColors(e, t.id, t.red, r, p);
    UnlinkOrder(e, t.id, t.red, r, p);
  }

  /** The focus on a node of the tree. */
  lemma {:induction false} FindFocus(t: Tree, p: Path, x: Id) returns (t': Tree, p': Path)
    requires x in Ids(t)
    ensures Plug(t', p') == Plug(t, p) && t'.Node? && t'.id == x
  {
    if t.id == x {
      t', p' := t, p;
    } else if x in Ids(t.left) {
      t', p' := FindFocus(t.left, Up(true, t.id, t.red, t.right, p), x);
    } else {
      t', p' := FindFocus(t.right, Up(false, t.id, t.red, t.left, p), x);
    }
  }
}
