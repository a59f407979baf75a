/** Sums and occurrence counts over finite sequences, shared by the other modules. */
module Counting {

  ghost predicate Distinct<T>(q: seq<T>) {
    forall i, j :: 0 <= i < j < |q| ==> q[i] != q[j]
  }

  /** The sum of f over the elements of q. */
  ghost function SumOver<T(!new)>(q: seq<T>, f: map<T, int>): int
    requires forall x :: x in q ==> x in f
  {
    if q == [] then 0 else f[q[0]] + SumOver(q[1..], f)
  }

  lemma {:induction false} SumOfSame<T(!new)>(q: seq<T>, f: map<T, int>, g: map<T, int>)
    requires forall x :: x in q ==> x in f && x in g && f[x] == g[x]
    ensures SumOver(q, f) == SumOver(q, g)
  {
    if q != [] { SumOfSame(q[1..], f, g); }
  }

  /** Pointwise at most and equal in total means pointwise equal. */
  lemma {:induction false} SumTight<T(!new)>(q: seq<T>, f: map<T, int>, g: map<T, int>)
    requires forall x :: x in q ==> x in f && x in g && f[x] <= g[x]
    ensures SumOver(q, f) <= SumOver(q, g)
    ensures SumOver(q, f) == SumOver(q, g) ==> forall x :: x in q ==> f[x] == g[x]
  {
    if q != [] {
      SumTight(q[1..], f, g);
      assert q == [q[0]] + q[1..];
    }
  }

  /** A smaller total leaves slack at some element. */
  lemma {:induction false} SumSlack<T(!new)>(q: seq<T>, f: map<T, int>, g: map<T, int>) returns (x: T)
    requires forall x :: x in q ==> x in f && x in g
    requires SumOver(q, f) < SumOver(q, g)
    ensures x in q && f[x] < g[x]
  {
    x := q[0];
    if f[x] >= g[x] { x := SumSlack(q[1..], f, g); }
  }

  lemma {:induction false} SumBump<T(!new)>(q: seq<T>, f: map<T, int>, x: T, d: int)
    requires Distinct(q) && x in f
    requires forall y :: y in q ==> y in f
    ensures SumOver(q, f[x := f[x] + d]) == SumOver(q, f) + if x in q then d else 0
  {
    if q != [] {
      assert q == [q[0]] + q[1..];
      if q[0] == x {
        SumOfSame(q[1..], f, f[x := f[x] + d]);
      } else {
        SumBump(q[1..], f, x, d);
      }
    }
  }

  ghost function Occurrences<T(!new)>(q: seq<T>, line: seq<T>): (m: map<T, int>)
  {
    map x | x in q :: multiset(line)[x]
  }

  /** How many entries of the line lie in q. */
  ghost function Hits<T(!new)>(q: seq<T>, line: seq<T>): (n: nat)
    ensures n <= |line|
    ensures (forall i :: 0 <= i < |line| ==> line[i] in q) ==> n == |line|
    ensures (exists i :: 0 <= i < |line| && line[i] !in q) ==> n < |line|
  {
    if line == [] then 0
    else
      var k := |line| - 1;
      var n := Hits(q, line[..k]);
      assert forall i :: 0 <= i < k ==> line[..k][i] == line[i];
      n + if line[k] in q then 1 else 0
  }

  /** Counting an entry of the line once per member of q counts each hit exactly once. */
  lemma {:induction false} SumOfOccurrences<T(!new)>(q: seq<T>, line: seq<T>)
    requires Distinct(q)
    ensures SumOver(q, Occurrences(q, line)) == Hits(q, line)
  {
    if line == [] {
      SumOfZeros(q, Occurrences(q, line));
    } else {
      var k := |line| - 1;
      var x := line[k];
      assert line == line[..k] + [x];
      SumOfOccurrences(q, line[..k]);
      var f := Occurrences(q, line[..k]);
      if x in q {
        SumBump(q, f, x, 1);
        SumOfSame(q, f[x := f[x] + 1], Occurrences(q, line));
      } else {
        SumOfSame(q, f, Occurrences(q, line));
      }
    }
  }

  lemma {:induction false} SumOfZeros<T(!new)>(q: seq<T>, f: map<T, int>)
    requires forall x :: x in q ==> x in f && f[x] == 0
    ensures SumOver(q, f) == 0
  {
    if q != [] { SumOfZeros(q[1..], f); }
  }

  lemma SomeMember<T>(a: set<T>) returns (x: T)
    requires a != {}
    ensures x in a
  {
    x :| x in a;
  }

  lemma {:induction false} LeastExists(a: set<int>)
    requires a != {}
    ensures exists k :: k in a && forall j :: j in a ==> k <= j
    decreases a
  {
    var x := SomeMember(a);
    var rest := a - {x};
    assert forall j :: j in a ==> j == x || j in rest;
    if rest == {} {
      assert x in a && forall j :: j in a ==> x <= j;
    } else {
      LeastExists(rest);
      var k :| k in rest && forall j :: j in rest ==> k <= j;
      var m := if x <= k then x else k;
      assert m in a && forall j :: j in a ==> m <= j;
    }
  }

  lemma {:induction false} SubsetSize<T>(a: set<T>, b: set<T>)
    requires a <= b
    ensures |a| <= |b|
    ensures |a| == |b| ==> a == b
  {
    if a != {} {
      var x :| x in a;
      SubsetSize(a - {x}, b - {x});
    }
  }
}
