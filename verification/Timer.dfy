/** Timers on the red-black tree (netfram/Timer.cpp:85-154). An event is its node; its key is the time it is due. */
module Timers {
  import opened Counting
  import opened RBShape
  import opened RBColor
  import opened RBDelete
  import opened RBSubst
  import opened RBTrees

  const LAZY_DELAY: int := 1

  /** A key given to a node outside s does not disturb the order of s. */
  lemma SortedElsewhere(key: map<Id, int>, s: seq<Id>, x: Id, k: int)
    requires x !in s
    ensures Sorted(key[x := k], s) <==> Sorted(key, s)
  {
    assert forall i :: 0 <= i < |s| ==> Key(key[x := k], s[i]) == Key(key, s[i]);
  }

  /** s after Delete: a node with at most one real child just goes, another one is replaced by the first of all. */
  ghost function Removed(s: seq<Id>, x: Id, oneChild: bool): seq<Id> {
    if x !in s then s else if oneChild then Without(s, x) else FirstInto(s, x)
  }

  class Timer {
    const holder: RBTree
    var now: int
    var timerOn: set<Id>

    /** An event's flag is on exactly while it is in the tree; the other events' links are null. */
    ghost predicate Sound()
      reads this, holder
    {
      holder.Sound() && timerOn == Ids(holder.tree) && forall z :: z !in timerOn ==> Unhung(holder.H(), z)
    }

    /** ... and the events are in the order of their times. */
    ghost predicate Valid()
      reads this, holder
    {
      Sound() && Sorted(holder.key, holder.Order())
    }

    /** All keys are less than 2^31 ticks from time k, so 32-bit differences compare them rightly. */
    ghost predicate Close(k: int)
      reads holder
    {
      forall z :: z in Ids(holder.tree) ==> -HALF < k - Key(holder.key, z) < HALF
    }

    constructor (t: int)
      ensures Valid() && fresh(holder) && now == t && timerOn == {} && holder.Order() == []
    {
      now, timerOn := t, {};
      holder := new RBTree();
      new;
      InorderIds(holder.tree);
      assert timerOn == Ids(holder.tree);
    }

    /** Take x out. An event that is off is left alone. The order stays sorted exactly if the event is off, has at most one
        real child, or comes after least keys only. */
    method Delete(x: Id)
      requires Sound() && holder.Order() != []
      modifies this`timerOn, holder
      ensures Sound() && timerOn == old(timerOn) - {x} && holder.key == old(holder.key)
      ensures holder.Order() == Removed(old(holder.Order()), x, old(holder.OneChild(x)))
      ensures old(Valid()) ==> (Valid() <==> old(Removable(x)))
    {
      ghost var was := holder.tree;
      InorderHas(was, x);
      ghost var one := holder.OneChild(x);
      if x in timerOn && !one { ForkNotFirst(holder.H(), was, x); }
      holder.Delete(x);
      timerOn := timerOn - {x};
      RemovedTree(was, holder.tree, x, one);
    }

    /** Taking x out keeps a sorted order so. */
    ghost predicate Removable(x: Id)
      reads this, holder
    {
      x !in timerOn || holder.OneChild(x) || LeastBefore(holder.key, holder.Order(), x)
    }

    /** Add leaves x alone. */
    ghost predicate Lazy(x: Id, time: nat)
      reads this, holder
    {
      time == 0 || (x in timerOn && Diff(now + time, Key(holder.key, x)) == 0)
    }

    /** Make x due `time` ticks from now. An event that is on already moves, unless it is due then anyway. A sorted order
        stays so exactly if taking x out kept it so. */
    method Add(x: Id, time: nat)
      requires Sound() && x > 0
      modifies this`timerOn, holder
      ensures Sound()
      ensures old(Lazy(x, time)) ==>
                timerOn == old(timerOn) && holder.key == old(holder.key) && holder.Order() == old(holder.Order())
      ensures old(!Lazy(x, time)) ==>
                && timerOn == old(timerOn) + {x} && holder.key == old(holder.key)[x := now + time]
                && InsertedIn(Removed(old(holder.Order()), x, old(holder.OneChild(x))), holder.Order(), x)
      ensures old(Valid() && Close(now + time)) ==> (Valid() <==> old(Lazy(x, time) || Removable(x)))
      ensures old(Valid() && Close(now + time) && !Lazy(x, time) && Removable(x)) ==>
                holder.Order() == SortedInsert(holder.key, Removed(old(holder.Order()), x, old(holder.OneChild(x))), x)
    {
      if time < LAZY_DELAY {
        return;
      }
      if x in timerOn {
        var diff := Diff(now + time, Key(holder.key, x));
        if -LAZY_DELAY < diff < LAZY_DELAY {
          return;
        }
      }
      Move(x, now + time);
    }

    /** Add for an event that is off or is to be due at another time. */
    method Move(x: Id, k: int)
      requires Sound() && x > 0
      modifies this`timerOn, holder
      ensures Sound() && timerOn == old(timerOn) + {x} && holder.key == old(holder.key)[x := k]
      ensures InsertedIn(Removed(old(holder.Order()), x, old(holder.OneChild(x))), holder.Order(), x)
      ensures old(Valid() && Close(k)) ==> (Valid() <==> old(Removable(x)))
      ensures old(Valid() && Close(k) && Removable(x)) ==>
                holder.Order() == SortedInsert(holder.key, Removed(old(holder.Order()), x, old(holder.OneChild(x))), x)
    {
      InorderHas(holder.tree, x);
      if x in timerOn {
        Delete(x);
      }
      Enter(x, k);
    }

    /** The end of Add. */
    method Enter(x: Id, k: int)
      requires Sound() && x > 0 && x !in timerOn
      modifies this`timerOn, holder
      ensures Sound() && timerOn == old(timerOn) + {x} && holder.key == old(holder.key)[x := k]
      ensures InsertedIn(old(holder.Order()), holder.Order(), x)
      ensures Valid() ==> old(Valid())
      ensures old(Valid() && Close(k)) ==> Valid() && holder.Order() == SortedInsert(holder.key, old(holder.Order()), x)
    {
      ghost var was := holder.tree;
      InorderHas(was, x);
      SortedElsewhere(holder.key, holder.Order(), x, k);
      holder.key := holder.key[x := k];
      holder.Insert(x);
      timerOn := timerOn + {x};
      InsertedIds(was, holder.tree, x);
      InsertedSorted(holder.key, Inorder(was), holder.Order(), x);
    }

    /** One round of Expire: the first event, if it is due. */
    method ExpireFirst() returns (due: bool, first: Id)
      requires Sound() && Close(now)
      modifies this`timerOn, holder
      ensures Sound() && Close(now) && holder.key == old(holder.key)
      ensures due ==> old(holder.Order()) == [first] + holder.Order() && Key(holder.key, first) <= now
      ensures !due ==> holder.Order() == old(holder.Order()) && NoneDue(holder.key, holder.tree, now)
    {
      if holder.root == NIL {
        return false, NIL;
      }
      first := holder.SeekToFirst();
      DiffIs(now, Key(holder.key, first));
      due := Diff(now, Key(holder.key, first)) >= 0;
      if due {
        ghost var rest := holder.Order();
        assert rest == [first] + rest[1..];
        Delete(first);
      }
    }

    /** Post the events at the front that are due and take them out; the rest stays. In a sorted tree these are all that are
        due, in the order of their times. */
    method Expire() returns (posted: seq<Id>)
      requires Sound() && Close(now)
      modifies this`timerOn, holder
      ensures Sound() && holder.key == old(holder.key)
      ensures posted + holder.Order() == old(holder.Order()) && Distinct(posted) && NoneDue(holder.key, holder.tree, now)
      ensures forall x :: x in posted ==> Key(holder.key, x) <= now
      ensures old(Valid()) ==> Valid() && Sorted(holder.key, posted)
      ensures old(Valid()) ==> forall x :: x in timerOn <==> x in old(timerOn) && Key(holder.key, x) > now
    {
      posted := [];
      ghost var was, key := holder.tree, holder.key;
      while true
        invariant Sound() && Close(now) && holder.key == key && Draining(key, was, posted, holder.tree, now)
        decreases |holder.Order()|
      {
        ghost var before := holder.tree;
        var due, first := ExpireFirst();
        if !due {
          break;
        }
        DrainOne(key, was, posted, before, first, holder.tree, now);
        posted := posted + [first];
      }
      DrainedDistinct(key, was, holder.tree, posted, now);
      if Sorted(key, Inorder(was)) { Expired(key, was, holder.tree, posted, now); }
    }
  }

  // ----- what is in the tree afterwards

  lemma InsertedIds(was: Tree, t: Tree, x: Id)
    requires InsertedIn(Inorder(was), Inorder(t), x)
    ensures Ids(t) == Ids(was) + {x}
  {
    forall y ensures y in Ids(t) <==> y in Ids(was) || y == x {
      InorderHas(was, y);
      InorderHas(t, y);
      InsertedHas(Inorder(was), Inorder(t), x, y);
    }
  }

  lemma InsertedHas(s: seq<Id>, s': seq<Id>, x: Id, y: Id)
    requires InsertedIn(s, s', x)
    ensures y in s' <==> y in s || y == x
  {
    var k: nat :| k <= |s| && s' == s[..k] + [x] + s[k..];
    assert s == s[..k] + s[k..];
  }

  /** No insertion sorts what was not sorted. */
  lemma InsertedSorted(key: map<Id, int>, s: seq<Id>, s': seq<Id>, x: Id)
    requires InsertedIn(s, s', x)
    ensures Sorted(key, s') ==> Sorted(key, s)
  {
    var k: nat :| k <= |s| && s' == s[..k] + [x] + s[k..];
    forall i, j | 0 <= i < j < |s| && Sorted(key, s') ensures Key(key, s[i]) <= Key(key, s[j]) {
      var i', j' := if i < k then i else i + 1, if j < k then j else j + 1;
      assert s'[i'] == s[i] && s'[j'] == s[j];
    }
  }

  lemma FirstIntoHas(s: seq<Id>, x: Id, y: Id)
    requires Distinct(s) && s != [] && x in s && x != s[0]
    ensures y in FirstInto(s, x) <==> y in s && y != x
  {
    var k :| 0 <= k < |s| && s[k] == x;
    var t := FirstInto(s, x);
    forall i | 0 <= i < |s| - 1 ensures |t| == |s| - 1 && t[i] == if i == k - 1 then s[0] else s[i + 1] { FirstIntoAt(s, x, k, i); }
    if y in s && y != x {
      var j :| 0 <= j < |s| && s[j] == y;
      assert if j == 0 then t[k - 1] == y else t[j - 1] == y;
    }
  }

  /** A node with a real left child is not the first. */
  lemma ForkNotFirst(h: Heap, t: Tree, x: Id)
    requires Good(h, t, Top) && x in Ids(t) && h.Left(x) != NIL
    ensures Inorder(t) != [] && Inorder(t)[0] != x
  {
    var u, p := FindFocus(t, Top, x);
    GoodTop(h, u, p);
    ReadFocus(h, u, p);
    PlugInorder(u, p);
    InorderDistinct(t);
    var a, b := Before(p), Inorder(u.left);
    assert b != [];
    assert Inorder(t) == a + (b + [x] + Inorder(u.right)) + After(p);
    assert Inorder(t)[|a| + |b|] == x;
  }

  /** All but x stay. */
  lemma RemovedTree(was: Tree, t: Tree, x: Id, oneChild: bool)
    requires Proper(was) && Inorder(t) == Removed(Inorder(was), x, oneChild)
    requires x in Ids(was) && !oneChild ==> Inorder(was) != [] && Inorder(was)[0] != x
    ensures Ids(t) == Ids(was) - {x}
  {
    forall y ensures y in Ids(t) <==> y in Ids(was) && y != x { RemovedHas(was, t, x, oneChild, y); }
  }

  lemma RemovedHas(was: Tree, t: Tree, x: Id, oneChild: bool, y: Id)
    requires Proper(was) && Inorder(t) == Removed(Inorder(was), x, oneChild)
    requires x in Ids(was) && !oneChild ==> Inorder(was) != [] && Inorder(was)[0] != x
    ensures y in Ids(t) <==> y in Ids(was) && y != x
  {
    InorderDistinct(was);
    InorderHas(was, x);
    InorderHas(was, y);
    InorderHas(t, y);
    if x in Ids(was) {
      if oneChild { WithoutHas(Inorder(was), x, y); } else { FirstIntoHas(Inorder(was), x, y); }
    }
  }

  ghost predicate NoneDue(key: map<Id, int>, t: Tree, now: int) { Inorder(t) == [] || Key(key, Inorder(t)[0]) > now }

  ghost predicate Draining(key: map<Id, int>, was: Tree, posted: seq<Id>, rest: Tree, now: int) {
    posted + Inorder(rest) == Inorder(was) && forall i :: 0 <= i < |posted| ==> Key(key, posted[i]) <= now
  }

  /** Four events due at 1, 2, 3 and 4, the third with two real children. */
  ghost const Four: Tree := Node(Node(Node(Leaf, 1, true, Leaf), 2, false, Leaf), 3, false, Node(Leaf, 4, false, Leaf))
  ghost const Times: map<Id, int> := map[1 := 1, 2 := 2, 3 := 3, 4 := 4]

  /** Once the third is taken out, the first waits behind the second: at time 1 it is due, and Expire finds nothing due. */
  lemma ForkDelaysFirst(t: Tree)
    requires Inorder(t) == Removed(Inorder(Four), 3, false)
    ensures RedBlack(Four) && Proper(Four) && Sorted(Times, Inorder(Four))
    ensures NoneDue(Times, t, 1) && 1 in Ids(t) && Key(Times, 1) <= 1 && !Sorted(Times, Inorder(t))
  {
    FourIs();
    assert Inorder(t) == [2, 1, 4];
    assert Key(Times, Inorder(t)[0]) > Key(Times, Inorder(t)[1]);
    InorderHas(t, 1);
  }

  lemma FourIs()
    ensures Inorder(Four) == [1, 2, 3, 4] && RedBlack(Four) && Proper(Four)
  {
    var l, r := Node(Node(Leaf, 1, true, Leaf), 2, false, Leaf), Node(Leaf, 4, false, Leaf);
    assert Inorder(Leaf) == [] && Ids(Leaf) == {};
    assert Inorder(l) == [1, 2] && Inorder(r) == [4] && Ids(l) == {1, 2} && Ids(r) == {4};
    assert Proper(l) && Proper(r) && Even(l) && Even(r) && Height(l) == 1 == Height(r);
  }

  // ----- that this comes about

  /** Where a child is missing there are at most two nodes. */
  lemma SmallTree(t: Tree)
    requires Even(t) && Calm(t) && t.Node? && (t.left.Leaf? || t.right.Leaf?)
    ensures |Inorder(t)| <= 2
  {
    LowTree(t.left);
    LowTree(t.right);
    assert Inorder(Leaf) == [];
  }

  /** Among five nodes one of the last three has two real children. */
  lemma ForkOfFive(t: Tree) returns (u: Tree, p: Path)
    requires RedBlack(t) && |Inorder(t)| == 5
    ensures Plug(u, p) == t && u.Node? && u.left.Node? && u.right.Node? && u.id in Inorder(t)[2..]
  {
    if t.left.Leaf? || t.right.Leaf? { SmallTree(t); }
    var l, r := Inorder(t.left), Inorder(t.right);
    assert Inorder(t) == l + [t.id] + r;
    if |l| >= 2 {
      u, p := t, Top;
      assert Inorder(t)[2..][|l| - 2] == t.id;
    } else {
      u, p := t.right, Up(false, t.id, t.red, t.left, Top);
      if u.left.Leaf? || u.right.Leaf? { SmallTree(u); }
      assert |Inorder(u.left)| + 1 + |Inorder(u.right)| == |r| == 5 - |l| - 1;
      assert r[|Inorder(u.left)|] == u.id;
      assert Inorder(t)[2..][|l| + 1 + |Inorder(u.left)| - 2] == u.id;
    }
  }

  /** The links show it. */
  lemma ForkSeen(h: Heap, t: Tree)
    requires Good(h, t, Top) && RedBlack(t) && Inorder(t) == [1, 2, 3, 4, 5]
    ensures exists x :: 3 <= x <= 5 && Fork(h, x)
  {
    var u, p := ForkOfFive(t);
    GoodTop(h, u, p);
    ReadFocus(h, u, p);
    IdsPositive(u.left);
    IdsPositive(u.right);
    assert [1, 2, 3, 4, 5][2..] == [3, 4, 5];
    assert Fork(h, u.id);
  }

  predicate Fork(h: Heap, x: Id) { h.Left(x) != NIL && h.Right(x) != NIL }

  /** n events, each due at the time of its number. */
  ghost predicate Numbered(key: map<Id, int>, s: seq<Id>, n: nat) {
    |s| == n && forall i :: 0 <= i < n ==> s[i] == i + 1 && Key(key, s[i]) == i + 1
  }

  lemma NumberedGrows(key: map<Id, int>, s: seq<Id>, n: nat)
    requires Numbered(key, s, n)
    ensures n + 1 !in s && Numbered(key[n + 1 := n + 1], SortedInsert(key[n + 1 := n + 1], s, n + 1), n + 1)
  {
    var key' := key[n + 1 := n + 1];
    assert forall i :: 0 <= i < n ==> Key(key', s[i]) == i + 1;
    InsertBetween(key', s, [], n + 1);
    assert s + [] == s && s + [n + 1] + [] == s + [n + 1];
  }

  lemma NumberedClose(key: map<Id, int>, t: Tree, n: nat)
    requires Numbered(key, Inorder(t), n) && n < 5
    ensures n + 1 !in Ids(t) && forall z :: z in Ids(t) ==> 0 < Key(key, z) <= 5
  {
    InorderIds(t);
    forall z | z in Ids(t) ensures 0 < Key(key, z) <= n && z <= n {
      assert z in Inorder(t);
      var i :| 0 <= i < n && Inorder(t)[i] == z;
    }
  }

  /** One more. */
  method AddNext(timer: Timer, n: nat)
    requires timer.Valid() && timer.now == 0 && n < 5 && Numbered(timer.holder.key, timer.holder.Order(), n)
    modifies timer`timerOn, timer.holder
    ensures timer.Valid() && Numbered(timer.holder.key, timer.holder.Order(), n + 1)
  {
    NumberedGrows(timer.holder.key, timer.holder.Order(), n);
    NumberedClose(timer.holder.key, timer.holder.tree, n);
    timer.Add(n + 1, n + 1);
  }

  method AddFive() returns (timer: Timer)
    ensures fresh(timer) && fresh(timer.holder) && timer.Valid() && timer.now == 0
    ensures Numbered(timer.holder.key, timer.holder.Order(), 5)
  {
    timer := new Timer(0);
    for n := 0 to 5
      invariant timer.Valid() && timer.now == 0 && Numbered(timer.holder.key, timer.holder.Order(), n)
      invariant fresh(timer) && fresh(timer.holder)
    {
      AddNext(timer, n);
    }
  }

  /** Delete an event with two real children that comes third or later. */
  method DeleteFork(timer: Timer) returns (x: Id)
    requires timer.Valid() && Numbered(timer.holder.key, timer.holder.Order(), 5)
    modifies timer`timerOn, timer.holder
    ensures 3 <= x <= 5 && timer.Sound() && timer.holder.key == old(timer.holder.key)
    ensures timer.holder.Order() == FirstInto(old(timer.holder.Order()), x)
  {
    var h := timer.holder.H();
    assert timer.holder.Order() == [1, 2, 3, 4, 5];
    ForkSeen(h, timer.holder.tree);
    x := if Fork(h, 3) then 3 else if Fork(h, 4) then 4 else 5;
    timer.Delete(x);
  }

  lemma SecondComesFirst(key: map<Id, int>, s: seq<Id>, x: Id)
    requires Numbered(key, s, 5) && 3 <= x <= 5
    ensures var s' := FirstInto(s, x); |s'| == 4 && s'[0] == 2 && 1 in s' && !Sorted(key, s')
    ensures forall y :: y in FirstInto(s, x) ==> 0 < Key(key, y) <= 5
  {
    var s' := FirstInto(s, x);
    assert s[1..][0] == 2 && s'[x - 2] == 1;
    assert Key(key, s'[0]) == 2 && Key(key, s'[x - 2]) == 1;
  }

  /** Five events are added and one is deleted; then the first is due, is on, and Expire posts nothing. */
  method DelayFirst() returns (timer: Timer, posted: seq<Id>)
    ensures fresh(timer) && timer.Sound() && timer.now == 1 && posted == []
    ensures 1 in timer.timerOn && Key(timer.holder.key, 1) == timer.now && !timer.Valid()
  {
    timer := AddFive();
    ghost var key, s := timer.holder.key, timer.holder.Order();
    var x := DeleteFork(timer);
    SecondComesFirst(key, s, x);
    InorderHas(timer.holder.tree, 1);
    timer.now := 1;
    posted := FirstExpire(timer);
  }

  /** With an event that is not due in front nothing is posted. */
  method FirstExpire(timer: Timer) returns (posted: seq<Id>)
    requires timer.Sound() && timer.holder.Order() != [] && Key(timer.holder.key, timer.holder.Order()[0]) > timer.now
    requires forall y :: y in timer.holder.Order() ==> -HALF < timer.now - Key(timer.holder.key, y) < HALF
    modifies timer`timerOn, timer.holder
    ensures timer.Sound() && posted == [] && timer.timerOn == old(timer.timerOn) && timer.holder.key == old(timer.holder.key)
    ensures timer.holder.Order() == old(timer.holder.Order())
  {
    ghost var was := timer.holder.tree;
    InorderIds(was);
    posted := timer.Expire();
    assert posted == [] || Inorder(was)[0] in posted;
    assert timer.holder.Order() == [] + timer.holder.Order() == Inorder(was);
    forall z ensures z in timer.timerOn <==> z in Ids(was) { InorderHas(timer.holder.tree, z); }
  }

  lemma DrainOne(key: map<Id, int>, was: Tree, posted: seq<Id>, rest: Tree, first: Id, rest': Tree, now: int)
    requires Draining(key, was, posted, rest, now) && Inorder(rest) == [first] + Inorder(rest') && Key(key, first) <= now
    ensures Draining(key, was, posted + [first], rest', now)
  {
    assert posted + ([first] + Inorder(rest')) == posted + [first] + Inorder(rest');
  }

  lemma DrainedDistinct(key: map<Id, int>, was: Tree, rest: Tree, posted: seq<Id>, now: int)
    requires Proper(was) && Draining(key, was, posted, rest, now)
    ensures Distinct(posted) && forall x :: x in posted ==> Key(key, x) <= now
  {
    InorderDistinct(was);
    assert forall i :: 0 <= i < |posted| ==> posted[i] == Inorder(was)[i];
  }

  /** Due events are a prefix of the order. */
  lemma Expired(key: map<Id, int>, was: Tree, rest: Tree, posted: seq<Id>, now: int)
    requires Proper(was) && Sorted(key, Inorder(was)) && Draining(key, was, posted, rest, now)
    requires NoneDue(key, rest, now)
    ensures Sorted(key, posted) && Sorted(key, Inorder(rest))
    ensures forall x :: x in Ids(rest) <==> x in Ids(was) && Key(key, x) > now
  {
    var s, r := Inorder(was), Inorder(rest);
    DuePrefix(key, posted, r, now);
    forall x ensures x in Ids(rest) <==> x in Ids(was) && Key(key, x) > now {
      InorderHas(was, x);
      InorderHas(rest, x);
      assert x in s <==> x in posted || x in r;
    }
  }

  lemma DuePrefix(key: map<Id, int>, posted: seq<Id>, r: seq<Id>, now: int)
    requires Sorted(key, posted + r) && (r != [] ==> Key(key, r[0]) > now)
    ensures Sorted(key, posted) && Sorted(key, r) && forall x :: x in r ==> Key(key, x) > now
  {
    var s := posted + r;
    assert forall i :: 0 <= i < |posted| ==> posted[i] == s[i];
    forall i, j | 0 <= i < j < |r| ensures Key(key, r[i]) <= Key(key, r[j]) { assert r[i] == s[|posted| + i] && r[j] == s[|posted| + j]; }
    forall x | x in r ensures Key(key, x) > now {
      var i :| 0 <= i < |r| && r[i] == x;
      assert s[|posted|] == r[0] && s[|posted| + i] == x;
      assert i > 0 ==> Key(key, s[|posted|]) <= Key(key, s[|posted| + i]);
    }
  }

  lemma InorderHas(t: Tree, x: Id)
    ensures x in Inorder(t) <==> x in Ids(t)
  {
    InorderIds(t);
  }

  lemma {:induction false} WithoutHas(s: seq<Id>, x: Id, y: Id)
    requires Distinct(s)
    ensures y in Without(s, x) <==> y in s && y != x
  {
    if s != [] {
      assert Distinct(s[1..]);
      assert s == [s[0]] + s[1..];
      WithoutHas(s[1..], x, y);
    }
  }
}
