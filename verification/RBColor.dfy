/** Colours of the tree and of the path above a focus, and what the fix-up steps do to tree and links together. */
module RBColor {
  import opened RBShape

  predicate RedRoot(t: Tree) { t.Node? && t.red }

  /** Black nodes on the way down, leftmost. */
  function Height(t: Tree): nat { if t.Leaf? then 0 else Height(t.left) + if t.red then 0 else 1 }

  /** Every way down has the same number of black nodes. */
  predicate Even(t: Tree) { t.Node? ==> Even(t.left) && Even(t.right) && Height(t.left) == Height(t.right) }

  /** No red node has a red child. */
  predicate Calm(t: Tree) {
    t.Node? ==> (t.red ==> !RedRoot(t.left) && !RedRoot(t.right)) && Calm(t.left) && Calm(t.right)
  }

  /** The path makes an even tree of an even focus of height n. */
  predicate PathEven(p: Path, n: nat) {
    p.Up? ==> Even(p.sibling) && Height(p.sibling) == n && PathEven(p.up, n + if p.red then 0 else 1)
  }

  /** The path makes a calm tree, with a black root, of a calm focus with a black root. */
  predicate PathCalm(p: Path) {
    p.Up? ==> (p.red ==> !RedRoot(p.sibling) && p.up.Up? && !p.up.red) && Calm(p.sibling) && PathCalm(p.up)
  }

  function Depth(p: Path): nat { if p.Top? then 0 else 1 + Depth(p.up) }

  lemma JoinColor(d: bool, t: Tree, x: Id, c: bool, s: Tree)
    ensures Even(Join(d, t, x, c, s)) <==> Even(t) && Even(s) && Height(t) == Height(s)
    ensures Height(t) == Height(s) ==> Height(Join(d, t, x, c, s)) == Height(t) + if c then 0 else 1
    ensures Calm(Join(d, t, x, c, s)) <==> (c ==> !RedRoot(t) && !RedRoot(s)) && Calm(t) && Calm(s)
  {
  }

  lemma {:induction false} PlugColor(t: Tree, p: Path)
    requires Even(t) && Calm(t) && PathEven(p, Height(t)) && PathCalm(p) && (RedRoot(t) && p.Up? ==> !p.red)
    ensures Even(Plug(t, p)) && Calm(Plug(t, p)) && (p.Up? ==> !RedRoot(Plug(t, p)))
    decreases p
  {
    match p
    case Top =>
    case Up(d, x, c, s, up) =>
      JoinColor(d, t, x, c, s);
      PlugColor(Join(d, t, x, c, s), up);
      if up.Top? { assert !c; }
  }

  // ----- flipping, zooming, orders

  lemma Flip(d: bool, a: Tree, x: Id, c: bool, b: Tree)
    ensures Join(!d, a, x, c, b) == Join(d, b, x, c, a)
  {
  }

  /** The heap holds the tree, in which no node occurs twice. */
  predicate Good(h: Heap, t: Tree, p: Path) { Rep(h, t, p) && Zip(t, p) }

  lemma GoodUp(h: Heap, t: Tree, d: bool, x: Id, c: bool, s: Tree, up: Path)
    ensures Good(h, t, Up(d, x, c, s, up)) <==> Good(h, Join(d, t, x, c, s), up)
  {
    RepUp(h, t, d, x, c, s, up);
    ZipUp(t, d, x, c, s, up);
  }

  lemma SameOrder(t: Tree, t': Tree, p: Path)
    requires Inorder(t) == Inorder(t')
    ensures Inorder(Plug(t, p)) == Inorder(Plug(t', p))
  {
    PlugInorder(t, p);
    PlugInorder(t', p);
  }

  lemma RotateOrder(d: bool, a: Tree, x: Id, cx: bool, b: Tree, y: Id, cy: bool, c: Tree, cx': bool, cy': bool)
    ensures Inorder(Join(d, a, x, cx, Join(d, b, y, cy, c))) == Inorder(Join(d, Join(d, a, x, cx', b), y, cy', c))
  {
    if d {
      Reassociate(Inorder(a), [x], Inorder(b), [y], Inorder(c));
    } else {
      Reassociate(Inorder(c), [y], Inorder(b), [x], Inorder(a));
    }
  }

  lemma Reassociate<T>(a: seq<T>, b: seq<T>, c: seq<T>, d: seq<T>, e: seq<T>)
    ensures a + b + (c + d + e) == (a + b + c) + d + e
  {
  }

  lemma JoinOrder(d: bool, t: Tree, t': Tree, x: Id, c: bool, c': bool, s: Tree, s': Tree)
    requires Inorder(t) == Inorder(t') && Inorder(s) == Inorder(s')
    ensures Inorder(Join(d, t, x, c, s)) == Inorder(Join(d, t', x, c', s'))
  {
  }

  /** Paint the root of the focus. */
  lemma PaintFocus(h: Heap, d: bool, l: Tree, x: Id, c: bool, r: Tree, p: Path, c': bool)
    requires Good(h, Join(d, l, x, c, r), p)
    ensures Good(h.Paint(x, c'), Join(d, l, x, c', r), p)
  {
    PaintRep(h, d, l, x, c, r, p, c');
  }

  /** Paint the node above the focus. */
  lemma PaintAbove(h: Heap, t: Tree, d: bool, x: Id, c: bool, s: Tree, up: Path, c': bool)
    requires Good(h, t, Up(d, x, c, s, up))
    ensures Good(h.Paint(x, c'), t, Up(d, x, c', s, up))
  {
    GoodUp(h, t, d, x, c, s, up);
    PaintFocus(h, d, t, x, c, s, up, c');
    GoodUp(h.Paint(x, c'), t, d, x, c', s, up);
  }

  /** Paint the other child of the node above. */
  lemma PaintSibling(h: Heap, t: Tree, d: bool, x: Id, c: bool, k: bool, l: Tree, y: Id, cy: bool, r: Tree, up: Path, c': bool)
    requires Good(h, t, Up(d, x, c, Join(k, l, y, cy, r), up))
    ensures Good(h.Paint(y, c'), t, Up(d, x, c, Join(k, l, y, c', r), up))
  {
    var s, s', h' := Join(k, l, y, cy, r), Join(k, l, y, c', r), h.Paint(y, c');
    GoodAcross(h, t, d, x, c, s, up);
    PaintFocus(h, k, l, y, cy, r, Up(!d, x, c, t, up), c');
    GoodAcross(h', t, d, x, c, s', up);
  }

  /** Move the focus to the other child of the node above. */
  lemma GoodAcross(h: Heap, t: Tree, d: bool, x: Id, c: bool, s: Tree, up: Path)
    ensures Good(h, t, Up(d, x, c, s, up)) <==> Good(h, s, Up(!d, x, c, t, up))
  {
    GoodUp(h, t, d, x, c, s, up);
    Flip(d, s, x, c, t);
    GoodUp(h, s, !d, x, c, t, up);
  }

  lemma RotateFocus(h: Heap, d: bool, a: Tree, x: Id, cx: bool, b: Tree, y: Id, cy: bool, c: Tree, p: Path)
    requires Good(h, Join(d, a, x, cx, Join(d, b, y, cy, c)), p)
    ensures CanRotate(h, d, x) && Good(Rotated(h, d, x), Join(d, Join(d, a, x, cx, b), y, cy, c), p)
  {
    RotateRep(h, d, a, x, cx, b, y, cy, c, p);
  }

  // ----- insertion

  /** Only the red root of the focus may be below a red node. */
  predicate Inserting(t: Tree, p: Path) { RedRoot(t) && Calm(t) && Even(t) && PathEven(p, Height(t)) && PathCalm(p) }

  /** The node above and the one above that, when the node above is red. */
  lemma AboveRed(t: Tree, p: Path)
    requires Inserting(t, p) && p.Up? && p.red
    ensures p.up.Up? && !p.up.red
  {
  }

  lemma TwoUp(t: Tree, d: bool, x: Id, s: Tree, p: Path)
    requires Inserting(t, Up(d, x, true, s, p))
    ensures Even(s) && Calm(s) && !RedRoot(s) && Height(s) == Height(t) && PathEven(p, Height(t)) && PathCalm(p)
    ensures p.Up? && Even(p.sibling) && Calm(p.sibling) && Height(p.sibling) == Height(t) && !p.red
    ensures PathEven(p.up, Height(t) + 1) && PathCalm(p.up)
  {
    assert PathCalm(p) && PathEven(p, Height(t));
  }

  /** Uncle red: recolour and go on two steps up. */
  lemma RecolourUp(h: Heap, t: Tree, d: bool, x: Id, s: Tree, e: bool, g: Id, l: Tree, u: Id, r: Tree, up: Path)
    requires Good(h, t, Up(d, x, true, s, Up(e, g, false, Node(l, u, true, r), up)))
    ensures Good(h.Paint(x, false).Paint(u, false).Paint(g, true), Join(e, Join(d, t, x, false, s), g, true, Node(l, u, false, r)), up)
  {
    var unc := Node(l, u, true, r);
    var h1 := h.Paint(x, false);
    PaintAbove(h, t, d, x, true, s, Up(e, g, false, unc, up), false);
    var t1 := Join(d, t, x, false, s);
    GoodUp(h1, t, d, x, false, s, Up(e, g, false, unc, up));
    PaintSibling(h1, t1, e, g, false, true, l, u, true, r, up, false);
    var h2 := h1.Paint(u, false);
    GoodUp(h2, t1, e, g, false, Node(l, u, false, r), up);
    PaintFocus(h2, e, t1, g, false, Node(l, u, false, r), up, true);
  }

  lemma RecolourKeeps(t: Tree, d: bool, x: Id, s: Tree, e: bool, g: Id, l: Tree, u: Id, r: Tree, up: Path)
    requires Inserting(t, Up(d, x, true, s, Up(e, g, false, Node(l, u, true, r), up)))
    ensures Inserting(Join(e, Join(d, t, x, false, s), g, true, Node(l, u, false, r)), up)
    ensures Inorder(Plug(Join(e, Join(d, t, x, false, s), g, true, Node(l, u, false, r)), up)) ==
            Inorder(Plug(t, Up(d, x, true, s, Up(e, g, false, Node(l, u, true, r), up))))
  {
    var unc, unc' := Node(l, u, true, r), Node(l, u, false, r);
    TwoUp(t, d, x, s, Up(e, g, false, unc, up));
    var t1, t1' := Join(d, t, x, true, s), Join(d, t, x, false, s);
    JoinColor(d, t, x, false, s);
    JoinColor(true, l, u, true, r);
    JoinColor(true, l, u, false, r);
    JoinColor(e, t1', g, true, unc');
    JoinOrder(d, t, t, x, true, false, s, s);
    JoinOrder(e, t1, t1', g, false, true, unc, unc');
    SameOrder(Join(e, t1, g, false, unc), Join(e, t1', g, true, unc'), up);
  }

  /** Uncle black, focus on the inner side: rotate the node above away, so that the focus is on the outer side. */
  lemma TurnOutward(h: Heap, e: bool, a: Tree, x: Id, b: Tree, y: Id, s: Tree, p: Path)
    requires Good(h, Join(e, a, x, true, b), Up(!e, y, true, s, p))
    ensures CanRotate(h, e, y) && Good(Rotated(h, e, y), Join(e, s, y, true, a), Up(e, x, true, b, p))
  {
    var t := Join(e, a, x, true, b);
    GoodUp(h, t, !e, y, true, s, p);
    Flip(e, t, y, true, s);
    RotateFocus(h, e, s, y, true, a, x, true, b, p);
    GoodUp(Rotated(h, e, y), Join(e, s, y, true, a), e, x, true, b, p);
  }

  lemma TurnKeeps(e: bool, a: Tree, x: Id, b: Tree, y: Id, s: Tree, p: Path)
    requires Inserting(Join(e, a, x, true, b), Up(!e, y, true, s, p))
    ensures Inserting(Join(e, s, y, true, a), Up(e, x, true, b, p))
    ensures Inorder(Plug(Join(e, s, y, true, a), Up(e, x, true, b, p))) ==
            Inorder(Plug(Join(e, a, x, true, b), Up(!e, y, true, s, p)))
  {
    var t := Join(e, a, x, true, b);
    JoinColor(e, a, x, true, b);
    JoinColor(e, s, y, true, a);
    Flip(e, t, y, true, s);
    RotateOrder(e, s, y, true, a, x, true, b, true, true);
    SameOrder(Join(e, s, y, true, t), Join(e, Join(e, s, y, true, a), x, true, b), p);
  }

  /** Uncle black, focus on the outer side: recolour and rotate the node two above down. */
  lemma RotateDown(h: Heap, e: bool, t: Tree, x: Id, s: Tree, g: Id, u: Tree, up: Path)
    requires Good(h, t, Up(e, x, true, s, Up(e, g, false, u, up)))
    ensures CanRotate(h.Paint(x, false).Paint(g, true), !e, g)
    ensures Good(Rotated(h.Paint(x, false).Paint(g, true), !e, g), t, Up(e, x, false, Join(e, s, g, true, u), up))
  {
    var h1, t1 := h.Paint(x, false), Join(e, t, x, false, s);
    PaintAbove(h, t, e, x, true, s, Up(e, g, false, u, up), false);
    GoodUp(h1, t, e, x, false, s, Up(e, g, false, u, up));
    PaintAbove(h1, t1, e, g, false, u, up, true);
    var h2 := h1.Paint(g, true);
    GoodUp(h2, t1, e, g, true, u, up);
    Flip(e, u, g, true, t1);
    Flip(e, s, x, false, t);
    RotateFocus(h2, !e, u, g, true, s, x, false, t, up);
    Flip(e, u, g, true, s);
    Flip(e, Join(e, s, g, true, u), x, false, t);
    GoodUp(Rotated(h2, !e, g), t, e, x, false, Join(e, s, g, true, u), up);
  }

  lemma RotateDownKeeps(e: bool, t: Tree, x: Id, s: Tree, g: Id, u: Tree, up: Path)
    requires Inserting(t, Up(e, x, true, s, Up(e, g, false, u, up))) && !RedRoot(u)
    ensures Inserting(t, Up(e, x, false, Join(e, s, g, true, u), up))
    ensures Inorder(Plug(t, Up(e, x, false, Join(e, s, g, true, u), up))) ==
            Inorder(Plug(t, Up(e, x, true, s, Up(e, g, false, u, up))))
  {
    TwoUp(t, e, x, s, Up(e, g, false, u, up));
    JoinColor(e, s, g, true, u);
    var was, now := Join(e, Join(e, t, x, true, s), g, false, u), Join(e, t, x, false, Join(e, s, g, true, u));
    RotateOrder(e, t, x, false, s, g, true, u, true, false);
    SameOrder(was, now, up);
  }

  // ----- taking a valid tree apart at a focus

  /** A tree between two operations. */
  predicate RedBlack(t: Tree) { Even(t) && Calm(t) && !RedRoot(t) }

  function Blackened(t: Tree): Tree { if t.Leaf? then t else Node(t.left, t.id, false, t.right) }

  lemma {:induction false} Unplug(t: Tree, p: Path)
    requires RedBlack(Plug(t, p))
    ensures Even(t) && Calm(t) && PathEven(p, Height(t)) && PathCalm(p) && (RedRoot(t) ==> p.Up? && !p.red)
    decreases p
  {
    match p
    case Top =>
    case Up(d, x, c, s, up) =>
      Unplug(Join(d, t, x, c, s), up);
      JoinColor(d, t, x, c, s);
  }

  lemma GoodTop(h: Heap, t: Tree, p: Path)
    ensures Good(h, t, p) <==> Good(h, Plug(t, p), Top)
  {
    RepTop(h, t, p);
    ZipTop(t, p);
  }

  /** What the links say about a focus: its parent, grandparent and uncle. */
  lemma ReadAbove(h: Heap, t: Tree, p: Path)
    requires Good(h, t, p) && t.Node?
    ensures t.id > 0 && (h.root == t.id <==> p.Top?)
    ensures p.Up? ==>
      && h.Parent(t.id) == p.id && h.Red(p.id) == p.red
      && (h.Left(p.id) == t.id <==> p.toLeft) && (h.Right(p.id) == t.id <==> !p.toLeft)
      && h.Kid(!p.toLeft, p.id) == RootOf(p.sibling) && (p.up.Up? ==> h.Parent(p.id) == p.up.id)
      && (p.sibling.Node? ==> h.Red(p.sibling.id) == p.sibling.red)
  {
    if p.Up? {
      RootInPath(h, p, t.id);
      assert RootOf(p.sibling) in Ids(p.sibling) + {NIL} && t.id in Ids(t);
    }
  }
}
