/** Deleting a node with two real children (netfram/RBTree.h:158-246): the code lets the first node of the whole tree, not
    the next one in order, take the place of the deleted node. */
module RBSubst {
  import opened RBShape
  import opened RBColor
  import opened RBDelete

  // ----- renaming a node

  function Rename(t: Tree, x: Id, f: Id): Tree {
    match t
    case Leaf => Leaf
    case Node(l, y, c, r) => Node(Rename(l, x, f), if y == x then f else y, c, Rename(r, x, f))
  }

  function RenamePath(p: Path, x: Id, f: Id): Path {
    match p
    case Top => Top
    case Up(d, y, c, s, up) => Up(d, if y == x then f else y, c, Rename(s, x, f), RenamePath(up, x, f))
  }

  /** s with x replaced by f. */
  function Subst(s: seq<Id>, x: Id, f: Id): (r: seq<Id>)
    ensures |r| == |s| && forall i :: 0 <= i < |s| ==> r[i] == if s[i] == x then f else s[i]
  {
    if s == [] then [] else [if s[0] == x then f else s[0]] + Subst(s[1..], x, f)
  }

  lemma {:induction false} SubstAppend(a: seq<Id>, b: seq<Id>, x: Id, f: Id)
    ensures Subst(a + b, x, f) == Subst(a, x, f) + Subst(b, x, f)
  {
    if a == [] {
      assert a + b == b;
    } else {
      assert (a + b)[1..] == a[1..] + b;
      SubstAppend(a[1..], b, x, f);
    }
  }

  lemma {:induction false} RenameOrder(t: Tree, x: Id, f: Id)
    ensures Inorder(Rename(t, x, f)) == Subst(Inorder(t), x, f)
  {
    match t
    case Leaf =>
    case Node(l, y, c, r) =>
      RenameOrder(l, x, f);
      RenameOrder(r, x, f);
      SubstAppend(Inorder(l) + [y], Inorder(r), x, f);
      SubstAppend(Inorder(l), [y], x, f);
      assert Subst([y], x, f) == [if y == x then f else y];
  }

  lemma {:induction false} RenameNone(t: Tree, x: Id, f: Id)
    requires x !in Ids(t)
    ensures Rename(t, x, f) == t
  {
    if t.Node? {
      RenameNone(t.left, x, f);
      RenameNone(t.right, x, f);
    }
  }

  lemma {:induction false} RenamePathNone(p: Path, x: Id, f: Id)
    requires x !in PathIds(p)
    ensures RenamePath(p, x, f) == p
  {
    if p.Up? {
      RenameNone(p.sibling, x, f);
      RenamePathNone(p.up, x, f);
    }
  }

  lemma {:induction false} RenamePlug(t: Tree, p: Path, x: Id, f: Id)
    ensures Rename(Plug(t, p), x, f) == Plug(Rename(t, x, f), RenamePath(p, x, f))
    decreases p
  {
    match p
    case Top =>
    case Up(d, y, c, s, up) => RenamePlug(Join(d, t, y, c, s), up, x, f);
  }

  /** Names do not matter for colours. */
  lemma {:induction false} RenameColors(t: Tree, x: Id, f: Id)
    ensures Height(Rename(t, x, f)) == Height(t) && RedRoot(Rename(t, x, f)) == RedRoot(t)
    ensures Even(Rename(t, x, f)) == Even(t) && Calm(Rename(t, x, f)) == Calm(t)
  {
    if t.Node? {
      RenameColors(t.left, x, f);
      RenameColors(t.right, x, f);
    }
  }

  lemma {:induction false} RenamePathColors(p: Path, n: nat, x: Id, f: Id)
    ensures PathEven(RenamePath(p, x, f), n) == PathEven(p, n) && PathCalm(RenamePath(p, x, f)) == PathCalm(p)
  {
    if p.Up? {
      RenameColors(p.sibling, x, f);
      RenamePathColors(p.up, n + if p.red then 0 else 1, x, f);
    }
  }

  // ----- ... on the links

  /** f takes over the links and the colour of x. */
  function Renamed(h: Heap, x: Id, f: Id): Heap {
    Rehung(h, x, f, h.Left(x), h.Right(x), h.Parent(x)).(parent := Adopted(h.parent, f, h.Parent(x), h.Left(x), h.Right(x)))
  }

  /** All but the parent links. */
  function Rehung(h: Heap, x: Id, f: Id, a: Id, b: Id, q: Id): Heap {
    Hung(h.SetKid(true, f, a).SetKid(false, f, b).Paint(f, h.Red(x)), true, x, f, q)
  }

  lemma RehungIgnoresParents(h: Heap, x: Id, f: Id, a: Id, b: Id, q: Id, par: map<Id, Id>)
    ensures Rehung(h.(parent := par), x, f, a, b, q) == Rehung(h, x, f, a, b, q).(parent := par)
  {
    var g := h.SetKid(true, f, a).SetKid(false, f, b).Paint(f, h.Red(x));
    assert h.(parent := par).SetKid(true, f, a).SetKid(false, f, b).Paint(f, h.Red(x)) == g.(parent := par);
    if x == h.root {} else if x == g.Kid(true, q) {} else {}
  }

  /** f below q, with a and b below f. */
  function Adopted(parent: map<Id, Id>, f: Id, q: Id, a: Id, b: Id): map<Id, Id> {
    var p := parent[f := q];
    var p' := if a != NIL then p[a := f] else p;
    if b != NIL then p'[b := f] else p'
  }

  /** The nodes around x: its children a and b, and q above. */
  predicate Around(h: Heap, x: Id, f: Id, a: Id, b: Id, q: Id) {
    && x != f && a == h.Left(x) && b == h.Right(x) && q == h.Parent(x)
    && a != x && a != f && b != x && b != f && (x != h.root ==> q != x && q != f)
  }

  /** The links one by one. */
  lemma RenamedUp(h: Heap, x: Id, f: Id, a: Id, b: Id, q: Id, z: Id)
    requires Around(h, x, f, a, b, q)
    ensures var h' := Renamed(h, x, f);
      && h'.root == (if x == h.root then f else h.root)
      && h'.Red(z) == (if z == f then h.Red(x) else h.Red(z))
      && h'.Parent(z) == (if (z == a && a != NIL) || (z == b && b != NIL) then f else if z == f then q else h.Parent(z))
  {
    RehungUp(h, x, f, a, b, q, z);
    assert Renamed(h, x, f).parent == Adopted(h.parent, f, q, a, b);
  }

  lemma RehungUp(h: Heap, x: Id, f: Id, a: Id, b: Id, q: Id, z: Id)
    ensures var h' := Rehung(h, x, f, a, b, q);
            h'.root == (if x == h.root then f else h.root) && h'.Red(z) == (if z == f then h.Red(x) else h.Red(z))
  {
  }

  lemma RenamedOwn(h: Heap, x: Id, f: Id, a: Id, b: Id, q: Id)
    requires Around(h, x, f, a, b, q)
    ensures Renamed(h, x, f).Left(f) == a && Renamed(h, x, f).Right(f) == b
  {
  }

  lemma RenamedDown(h: Heap, x: Id, f: Id, a: Id, b: Id, q: Id, z: Id)
    requires Around(h, x, f, a, b, q) && z != f && (x == h.root || z != q)
    ensures Renamed(h, x, f).Left(z) == h.Left(z) && Renamed(h, x, f).Right(z) == h.Right(z)
  {
  }

  lemma RenamedAbove(h: Heap, x: Id, f: Id, a: Id, b: Id, q: Id)
    requires Around(h, x, f, a, b, q) && x != h.root
    ensures var h' := Renamed(h, x, f);
      if h.Left(q) == x then h'.Left(q) == f && h'.Right(q) == h.Right(q) else h'.Right(q) == f && h'.Left(q) == h.Left(q)
  {
  }

  lemma RenamedSame(h: Heap, x: Id, f: Id, a: Id, b: Id, q: Id, ids: set<Id>, but: Id)
    requires Around(h, x, f, a, b, q)
    requires f !in ids && (x == h.root || q !in ids) && NIL !in ids
    requires (a in ids ==> a == but) && (b in ids ==> b == but)
    ensures Same(h, Renamed(h, x, f), ids, but)
  {
    forall z | z in ids
      ensures var h' := Renamed(h, x, f);
        && h'.Left(z) == h.Left(z) && h'.Right(z) == h.Right(z) && h'.Red(z) == h.Red(z) && (z != but ==> h'.Parent(z) == h.Parent(z))
    {
      RenamedUp(h, x, f, a, b, q, z);
      RenamedDown(h, x, f, a, b, q, z);
    }
  }

  /** A focus on x whose root is renamed. */
  lemma RenameRep(h: Heap, l: Tree, x: Id, c: bool, r: Tree, p: Path, f: Id)
    requires Good(h, Node(l, x, c, r), p) && f > 0 && f !in Ids(Node(l, x, c, r)) && f !in PathIds(p)
    ensures Good(Renamed(h, x, f), Node(l, f, c, r), p)
  {
    var h', a, b, q := Renamed(h, x, f), RootOf(l), RootOf(r), h.Parent(x);
    RenameReady(h, l, x, c, r, p, f);
    RenamedOwn(h, x, f, a, b, q);
    RenamedUp(h, x, f, a, b, q, f);
    RenamedUp(h, x, f, a, b, q, a);
    RenamedUp(h, x, f, a, b, q, b);
    RenameSubtrees(h, l, x, c, r, p, f);
    if p.Up? { RenameUnder(h, x, f, a, b, p); }
    JoinHolds(h', true, l, f, c, r);
    JoinIds(true, l, f, c, r);
    JoinIds(true, l, x, c, r);
  }

  lemma RenameSubtrees(h: Heap, l: Tree, x: Id, c: bool, r: Tree, p: Path, f: Id)
    requires Good(h, Node(l, x, c, r), p) && f > 0 && f !in Ids(Node(l, x, c, r)) && f !in PathIds(p)
    ensures Holds(Renamed(h, x, f), l) && Holds(Renamed(h, x, f), r)
  {
    var h', a, b, q := Renamed(h, x, f), RootOf(l), RootOf(r), h.Parent(x);
    RenameReady(h, l, x, c, r, p, f);
    RenamedSame(h, x, f, a, b, q, Ids(l), a);
    RenamedSame(h, x, f, a, b, q, Ids(r), b);
    HoldsSame(h, h', l);
    HoldsSame(h, h', r);
  }

  lemma RenameReady(h: Heap, l: Tree, x: Id, c: bool, r: Tree, p: Path, f: Id)
    requires Good(h, Node(l, x, c, r), p) && f > 0 && f !in Ids(Node(l, x, c, r)) && f !in PathIds(p)
    ensures x > 0 && x != f && h.Left(x) == RootOf(l) && h.Right(x) == RootOf(r)
    ensures RootOf(l) != x && RootOf(l) != f && RootOf(r) != x && RootOf(r) != f && f !in Ids(l) && f !in Ids(r)
    ensures RootOf(l) !in Ids(r) && RootOf(r) !in Ids(l) && NIL !in Ids(l) && NIL !in Ids(r)
    ensures p.Top? ==> x == h.root
    ensures p.Up? ==> x != h.root && h.Parent(x) == p.id && p.id != x && p.id != f && p.id !in Ids(l) && p.id !in Ids(r)
    ensures p.Up? ==> RootOf(l) !in PathIds(p) && RootOf(r) !in PathIds(p) && x !in PathIds(p)
  {
    if p.Up? {
      RootInPath(h, p, x);
      PathIdsPositive(p);
      assert p.id in PathIds(p);
    }
    IdsPositive(l);
    IdsPositive(r);
    assert RootOf(l) in Ids(l) + {NIL} && RootOf(r) in Ids(r) + {NIL} && x in Ids(Node(l, x, c, r));
  }

  lemma RenameUnder(h: Heap, x: Id, f: Id, a: Id, b: Id, p: Path)
    requires p.Up? && HoldsPath(h, p, x) && ProperPath(p) && x > 0 && f > 0 && x != h.root && Around(h, x, f, a, b, p.id)
    requires a !in PathIds(p) && b !in PathIds(p) && x !in PathIds(p) && f !in PathIds(p)
    ensures HoldsPath(Renamed(h, x, f), p, f)
  {
    PathIdsPositive(p);
    RenamedSame(h, x, f, a, b, p.id, PathIds(p.up) + Ids(p.sibling), NIL);
    RenamedUp(h, x, f, a, b, p.id, p.id);
    RenamedAbove(h, x, f, a, b, p.id);
    SiblingApart(p, x);
    Refocus(h, Renamed(h, x, f), p, x, f);
  }

  lemma {:induction false} RenameIds(t: Tree, x: Id, f: Id)
    requires x != f
    ensures x !in Ids(Rename(t, x, f))
  {
    if t.Node? {
      RenameIds(t.left, x, f);
      RenameIds(t.right, x, f);
    }
  }

  lemma {:induction false} RenamePathIds(p: Path, x: Id, f: Id)
    requires x != f
    ensures x !in PathIds(RenamePath(p, x, f))
  {
    if p.Up? {
      RenameIds(p.sibling, x, f);
      RenamePathIds(p.up, x, f);
    }
  }

  // ----- the first node takes the place of x

  /** f, below q on side d with only child m, is unlinked and takes the place of x. */
  function Substituted(h: Heap, x: Id, f: Id): Heap {
    Renamed(Freed(h, x, f), x, f)
  }

  /** Renaming a node somewhere in the tree, seen from another focus. */
  lemma RenameElsewhere(h: Heap, t: Tree, p: Path, x: Id, f: Id)
    requires Good(h, t, p) && x in Ids(t) + PathIds(p) && x !in Ids(t) && f > 0 && f !in Ids(t) + PathIds(p)
    ensures Good(Renamed(h, x, f), t, RenamePath(p, x, f))
  {
    var whole := Plug(t, p);
    ZipTop(t, p);
    GoodTop(h, t, p);
    var u, r := FindFocus(whole, Top, x);
    GoodTop(h, u, r);
    ZipTop(u, r);
    RenameRep(h, u.left, x, u.red, u.right, r, f);
    RenameHere(u, r, x, f);
    GoodTop(Renamed(h, x, f), Node(u.left, f, u.red, u.right), r);
    RenamePlug(t, p, x, f);
    RenameNone(t, x, f);
    GoodTop(Renamed(h, x, f), t, RenamePath(p, x, f));
  }

  lemma RenameHere(u: Tree, r: Path, x: Id, f: Id)
    requires u.Node? && u.id == x && Zip(u, r)
    ensures Rename(Plug(u, r), x, f) == Plug(Node(u.left, f, u.red, u.right), r)
  {
    RenamePlug(u, r, x, f);
    assert x in Ids(u);
    RenameNone(u.left, x, f);
    RenameNone(u.right, x, f);
    RenamePathNone(r, x, f);
  }

  /** Only the links of the nodes in the tree matter. */
  lemma AgreeGood(h: Heap, h': Heap, t: Tree, p: Path)
    requires Good(h, t, p) && Same(h, h', Ids(t), NULL) && Same(h, h', PathIds(p), NULL) && h'.root == h.root
    ensures Good(h', t, p)
  {
    IdsPositive(t);
    PathIdsPositive(p);
    assert Same(h, h', Ids(t), RootOf(t)) && Same(h, h', PathIds(p), NIL);
    HoldsSame(h, h', t);
    PathSame(h, h', p, RootOf(t));
    assert t.Node? ==> t.id in Ids(t);
  }

  lemma ClearedAgrees(h: Heap, x: Id, ids: set<Id>)
    requires x !in ids
    ensures Same(h, Cleared(h, x), ids, NULL) && Same(Cleared(h, x), h, ids, NULL)
  {
  }

  lemma ClearedGood(h: Heap, t: Tree, p: Path, x: Id)
    requires x !in Ids(t) && x !in PathIds(p)
    ensures Good(Cleared(h, x), t, p) <==> Good(h, t, p)
  {
    var h' := Cleared(h, x);
    ClearedAgrees(h, x, Ids(t));
    ClearedAgrees(h, x, PathIds(p));
    if Good(h, t, p) { AgreeGood(h, h', t, p); }
    if Good(h', t, p) { AgreeGood(h', h, t, p); }
  }

  /** f is unlinked, but keeps its own links. */
  function Bypassed(h: Heap, d: bool, q: Id, m: Id): Heap { h.SetKid(d, q, m).SetParent(m, q) }

  lemma BypassRep(h: Heap, f: Id, c: bool, r: Tree, p: Path)
    requires p.Up? && Good(h, Node(Leaf, f, c, r), p)
    ensures Good(Bypassed(h, p.toLeft, p.id, RootOf(r)), r, p) && Bypassed(h, p.toLeft, p.id, RootOf(r)).Parent(RootOf(r)) == p.id
  {
    UnlinkRep(h, true, f, c, r, p);
    assert f in Ids(Node(Leaf, f, c, r));
    ClearedGood(Bypassed(h, p.toLeft, p.id, RootOf(r)), r, p, f);
  }

  /** If f was a child of x, the parent link of its own child is set for f at once: after the renaming it is as before. */
  lemma EarlyParent(h: Heap, t: Tree, p: Path, x: Id, f: Id, m: Id, b: Id)
    requires Good(Renamed(h, x, f), t, p) && m == h.Left(x) && b == h.Right(x) && x > 0 && f > 0 && x != f && m >= 0 && b >= 0
    requires m != x && m != f && b != x && b != f && m != h.root && (x != h.root ==> h.Parent(x) != x && h.Parent(x) != f)
    ensures Good(Renamed(h.SetParent(m, f), x, f), t, p)
  {
    var h1, q := h.SetParent(m, f), h.Parent(x);
    var g, g' := Renamed(h, x, f), Renamed(h1, x, f);
    IdsPositive(t);
    PathIdsPositive(p);
    forall z | z in Ids(t) + PathIds(p)
      ensures g'.Left(z) == g.Left(z) && g'.Right(z) == g.Right(z) && g'.Red(z) == g.Red(z) && g'.Parent(z) == g.Parent(z)
    {
      EarlyLinks(h, x, f, m, b, q, z);
    }
    RenamedUp(h, x, f, m, b, q, x);
    RenamedUp(h1, x, f, m, b, q, x);
    AgreeGood(g, g', t, p);
  }

  lemma EarlyLinks(h: Heap, x: Id, f: Id, m: Id, b: Id, q: Id, z: Id)
    requires Around(h, x, f, m, b, q) && z > 0 && m >= 0
    ensures var g, g' := Renamed(h, x, f), Renamed(h.SetParent(m, f), x, f);
            g'.Left(z) == g.Left(z) && g'.Right(z) == g.Right(z) && g'.Red(z) == g.Red(z) && g'.Parent(z) == g.Parent(z)
  {
    var h1 := h.SetParent(m, f);
    RenamedUp(h, x, f, m, b, q, z);
    RenamedUp(h1, x, f, m, b, q, z);
    RehungIgnoresParents(h, x, f, m, b, q, h1.parent);
  }

  /** The nodes around f, the first in the tree, and x, another one. */
  lemma SubstituteReady(h: Heap, f: Id, c: bool, r: Tree, p: Path, x: Id)
    requires Good(h, Node(Leaf, f, c, r), p) && p.Up? && p.toLeft && x in PathIds(p)
    ensures f > 0 && x > 0 && p.id > 0 && RootOf(r) >= 0 && x != f && x !in Ids(r) && p.id != f
    ensures RootOf(r) != f && RootOf(r) != x && RootOf(r) != p.id && RootOf(r) != h.root && f != h.root && f !in Ids(r) + PathIds(p)
    ensures h.Parent(f) == p.id && h.Left(p.id) == f && h.Right(f) == RootOf(r) && h.Left(f) == NIL
  {
    ReadFocus(h, Node(Leaf, f, c, r), p);
    RootInPath(h, p, f);
    IdsPositive(r);
    PathIdsPositive(p);
    assert RootOf(r) in Ids(r) + {NIL} && p.id in PathIds(p) && f in Ids(Node(Leaf, f, c, r));
  }

  /** The links of x after f has been unlinked. */
  lemma AroundX(h: Heap, t: Tree, p: Path, x: Id, f: Id)
    requires Good(h, t, p) && x in PathIds(p) && x !in Ids(t) && f > 0 && f !in Ids(t) + PathIds(p)
    ensures Around(h, x, f, h.Left(x), h.Right(x), h.Parent(x)) && h.Left(x) >= 0 && h.Right(x) >= 0
    ensures x != h.root ==> h.Left(h.Parent(x)) == x || h.Right(h.Parent(x)) == x
    ensures x != h.root ==> h.Left(x) != h.root && h.Right(x) != h.root
  {
    ZipTop(t, p);
    GoodTop(h, t, p);
    var u, r := FindFocus(Plug(t, p), Top, x);
    GoodTop(h, u, r);
    ZipTop(u, r);
    RenameReady(h, u.left, x, u.red, u.right, r, f);
    ReadFocus(h, u, r);
    if r.Up? { RootInPath(h, r, x); }
  }

  lemma SubstituteRep(h: Heap, f: Id, c: bool, r: Tree, p: Path, x: Id)
    requires Good(h, Node(Leaf, f, c, r), p) && p.Up? && p.toLeft && x in PathIds(p)
    ensures Good(Substituted(h, x, f), r, RenamePath(p, x, f))
  {
    var q, m := p.id, RootOf(r);
    SubstituteReady(h, f, c, r, p, x);
    BypassRep(h, f, c, r, p);
    var u := Bypassed(h, true, q, m);
    RenameElsewhere(u, r, p, x, f);
    if q == x {
      AroundX(u, r, p, x, f);
      EarlyParent(u, r, RenamePath(p, x, f), x, f, m, u.Right(x));
      assert u.SetParent(m, f) == h.SetKid(true, q, m).SetParent(m, f);
    }
  }

  lemma SubstituteParent(h: Heap, f: Id, c: bool, r: Tree, p: Path, x: Id)
    requires Good(h, Node(Leaf, f, c, r), p) && p.Up? && p.toLeft && x in PathIds(p)
    ensures Substituted(h, x, f).Parent(RootOf(r)) == RenamePath(p, x, f).id
  {
    var q, m := p.id, RootOf(r);
    SubstituteReady(h, f, c, r, p, x);
    SubstituteRep(h, f, c, r, p, x);
    if r.Leaf? {
      BypassRep(h, f, c, r, p);
      var u, h1 := Bypassed(h, true, q, m), h.SetKid(true, q, m).SetParent(m, if q == x then f else q);
      AroundX(u, r, p, x, f);
      assert h1.Left(x) == u.Left(x) && h1.Right(x) == u.Right(x) && h1.Parent(x) == u.Parent(x);
      RenamedUp(h1, x, f, u.Left(x), u.Right(x), u.Parent(x), NIL);
    }
  }

  /** The whole step: x is out of the tree and f stands in its place, with the repair still to do below the node that was
      above f. */
  lemma SubstituteGood(h: Heap, f: Id, c: bool, r: Tree, p: Path, x: Id)
    requires Good(h, Node(Leaf, f, c, r), p) && p.Up? && p.toLeft && x in PathIds(p)
    ensures var h', p' := Cleared(Substituted(h, x, f), x), RenamePath(p, x, f);
            Good(h', r, p') && h'.Parent(RootOf(r)) == p'.id && Unhung(h', x)
  {
    SubstituteReady(h, f, c, r, p, x);
    SubstituteRep(h, f, c, r, p, x);
    SubstituteParent(h, f, c, r, p, x);
    RenamePathIds(p, x, f);
    ClearedGood(Substituted(h, x, f), r, RenamePath(p, x, f), x);
  }

  lemma RenamedFramed(h: Heap, x: Id, f: Id, a: Id, b: Id, q: Id)
    requires Around(h, x, f, a, b, q) && a >= 0 && b >= 0 && x > 0 && f > 0 && h.root > 0 && f != h.root
    requires x != h.root ==> a != h.root && b != h.root && (h.Left(q) == x || h.Right(q) == x)
    ensures RootParent(Renamed(h, x, f)) == RootParent(h) && Renamed(h, x, f).root != x && Renamed(h, x, f).Red(NIL) == h.Red(NIL)
    ensures forall z :: Unhung(h, z) && z != f ==> Unhung(Renamed(h, x, f), z)
  {
    RenamedUp(h, x, f, a, b, q, if x == h.root then f else h.root);
    RenamedUp(h, x, f, a, b, q, NIL);
    forall z | Unhung(h, z) && z != f ensures Unhung(Renamed(h, x, f), z) { RenamedDown(h, x, f, a, b, q, z); }
  }

  lemma ClearedFramed(h: Heap, x: Id)
    requires h.root != x
    ensures Framed(h, Cleared(h, x)) && Cleared(h, x).Red(NIL) == h.Red(NIL)
  {
  }

  /** The links when f has been unlinked, before it takes the place of x. */
  function Freed(h: Heap, x: Id, f: Id): Heap {
    var q, m := h.Parent(f), h.Right(f);
    h.SetKid(f == h.Left(q), q, m).SetParent(m, if q == x then f else q)
  }

  lemma FreedAround(h: Heap, f: Id, c: bool, r: Tree, p: Path, x: Id)
    requires Good(h, Node(Leaf, f, c, r), p) && p.Up? && p.toLeft && x in PathIds(p)
    ensures var h1 := Freed(h, x, f);
      && Around(h1, x, f, h1.Left(x), h1.Right(x), h1.Parent(x)) && h1.Left(x) >= 0 && h1.Right(x) >= 0
      && (x != h1.root ==> h1.Left(x) != h1.root && h1.Right(x) != h1.root)
      && (x != h1.root ==> h1.Left(h1.Parent(x)) == x || h1.Right(h1.Parent(x)) == x)
  {
    var q, m := p.id, RootOf(r);
    SubstituteReady(h, f, c, r, p, x);
    BypassRep(h, f, c, r, p);
    var u, h1 := Bypassed(h, true, q, m), Freed(h, x, f);
    AroundX(u, r, p, x, f);
    assert h1.Parent(x) == u.Parent(x) && h1.root == u.root && h1.left == u.left && h1.right == u.right;
  }

  lemma FreedFramed(h: Heap, f: Id, c: bool, r: Tree, p: Path, x: Id)
    requires Good(h, Node(Leaf, f, c, r), p) && p.Up? && p.toLeft && x in PathIds(p)
    ensures var h1 := Freed(h, x, f);
      && h1.root == h.root > 0 && f != h.root && f > 0 && x > 0 && RootParent(h1) == RootParent(h) && h1.Red(NIL) == h.Red(NIL)
      && forall z :: Unhung(h, z) ==> z != f && Unhung(h1, z)
  {
    SubstituteReady(h, f, c, r, p, x);
    RootInPath(h, p, f);
    PathIdsPositive(p);
  }

  lemma SubstituteFramed(h: Heap, f: Id, c: bool, r: Tree, p: Path, x: Id)
    requires Good(h, Node(Leaf, f, c, r), p) && p.Up? && p.toLeft && x in PathIds(p)
    ensures Framed(h, Cleared(Substituted(h, x, f), x)) && Cleared(Substituted(h, x, f), x).Red(NIL) == h.Red(NIL)
  {
    var h1 := Freed(h, x, f);
    FreedAround(h, f, c, r, p, x);
    FreedFramed(h, f, c, r, p, x);
    RenamedFramed(h1, x, f, h1.Left(x), h1.Right(x), h1.Parent(x));
    ClearedFramed(Renamed(h1, x, f), x);
  }

  // ----- colours and order

  lemma SubstituteColors(f: Id, c: bool, r: Tree, p: Path, x: Id)
    requires RedBlack(Plug(Node(Leaf, f, c, r), p)) && x !in Ids(r)
    ensures if c then RedBlack(Plug(r, RenamePath(p, x, f))) else Short(r, RenamePath(p, x, f))
  {
    UnlinkColors(true, f, c, r, p);
    RenamePathColors(p, Height(r) + 1, x, f);
    RenamePlug(r, p, x, f);
    RenameNone(r, x, f);
    RenameColors(Plug(r, p), x, f);
  }

  /** The first node leaves the front and takes the place of x. */
  lemma SubstituteOrder(f: Id, c: bool, r: Tree, p: Path, x: Id)
    requires Zip(Node(Leaf, f, c, r), p) && x !in Ids(r) && Before(p) == []
    ensures var s := Inorder(Plug(Node(Leaf, f, c, r), p));
            s != [] && s[0] == f && Inorder(Plug(r, RenamePath(p, x, f))) == Subst(s[1..], x, f)
  {
    FirstOrder(f, c, r, p);
    RenamePlug(r, p, x, f);
    RenameNone(r, x, f);
    RenameOrder(Plug(r, p), x, f);
  }

  lemma FirstOrder(f: Id, c: bool, r: Tree, p: Path)
    requires Before(p) == []
    ensures Inorder(Plug(Node(Leaf, f, c, r), p)) == [f] + Inorder(Plug(r, p))
  {
    PlugInorder(Node(Leaf, f, c, r), p);
    PlugInorder(r, p);
    assert Inorder(Leaf) == [];
    assert Inorder(Node(Leaf, f, c, r)) == [f] + Inorder(r);
    assert [] + ([f] + Inorder(r)) + After(p) == [f] + ([] + Inorder(r) + After(p));
  }

  // ----- low trees have no node with two real children

  lemma LowTree(t: Tree)
    requires Even(t) && Calm(t) && Height(t) == 0
    ensures t.Leaf? || (t.left.Leaf? && t.right.Leaf?)
  {
  }

  lemma LowHasNoForks(h: Heap, t: Tree, x: Id)
    requires Even(t) && Calm(t) && Height(t) == 0 && Holds(h, t) && x in Ids(t)
    ensures h.Left(x) == NIL && h.Right(x) == NIL
  {
    LowTree(t);
    assert Ids(Leaf) == {};
  }

  /** A fork x is neither the first node f, nor below it; and f is not the root. */
  lemma ForkIsAbove(h: Heap, f: Id, c: bool, r: Tree, p: Path, x: Id)
    requires Good(h, Node(Leaf, f, c, r), p) && RedBlack(Plug(Node(Leaf, f, c, r), p))
    requires x in Ids(Plug(Node(Leaf, f, c, r), p)) && h.Left(x) != NIL && h.Right(x) != NIL
    ensures p.Up? && x in PathIds(p) && x !in Ids(r)
  {
    var t := Node(Leaf, f, c, r);
    ZipTop(t, p);
    Unplug(t, p);
    ReadFocus(h, t, p);
    assert Height(Leaf) == 0 && Ids(t) == {f} + Ids(r) by { assert Ids(Leaf) == {}; }
    if x in Ids(r) { LowHasNoForks(h, r, x); }
    assert x != f;
  }
}
