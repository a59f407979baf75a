/** Option scanning with permutation (netfram/GetOpt.cpp): the in-place block swap along gcd cycles, and what a whole scan
    makes of the argument vector. */
module GetOpts {
  import opened Cycles

  /** s with the block of p elements at lo exchanged with the block of q elements after it. */
  function BlockSwap<T>(s: seq<T>, lo: nat, p: nat, q: nat): seq<T>
    requires lo + p + q <= |s|
  {
    s[..lo] + s[lo + p..lo + p + q] + s[lo..lo + p] + s[lo + p + q..]
  }

  // ----- progress of the cycles; places of the window are counted from lo

  ghost predicate Fits<T>(w: Window, lo: nat, s: seq<T>, t: seq<T>) {
    |s| == |t| && lo + w.Size() <= |s|
  }

  /** Outside the window nothing has moved. */
  ghost predicate Aside<T>(w: Window, lo: nat, s: seq<T>, t: seq<T>)
    requires Fits(w, lo, s, t)
  {
    forall x: nat :: x < |s| && (x < lo || x >= lo + w.Size()) ==> t[x] == s[x]
  }

  /** The places in done hold what the block swap brings there, the others what they held. */
  ghost predicate Settled<T>(w: Window, lo: nat, s: seq<T>, t: seq<T>, done: set<nat>) {
    match w
    case Window(p, q) =>
      && Fits(w, lo, s, t) && Aside(w, lo, s, t)
      && (forall r: nat :: r < p + q && r in done ==> t[lo + r] == s[lo + w.Source(r)])
      && (forall r: nat :: r < p + q && r !in done ==> t[lo + r] == s[lo + r])
  }

  /** The same, in a cycle from c whose last place was x: the element of x waits at c. */
  ghost predicate Settling<T>(w: Window, lo: nat, s: seq<T>, t: seq<T>, done: set<nat>, c: nat, x: nat) {
    match w
    case Window(p, q) =>
      && Fits(w, lo, s, t) && Aside(w, lo, s, t) && x < p + q
      && (forall r: nat :: r < p + q && r in done ==> t[lo + r] == s[lo + w.Source(r)])
      && (forall r: nat :: r < p + q && r !in done ==> t[lo + r] == s[lo + if r == c then x else r])
  }

  ghost function Exchange<T>(t: seq<T>, x: nat, y: nat): seq<T>
    requires x < |t| && y < |t|
  {
    t[x := t[y]][y := t[x]]
  }

  lemma ExchangeSettles<T>(w: Window, lo: nat, s: seq<T>, t: seq<T>, done: set<nat>, c: nat, x: nat,
                           t': seq<T>, done': set<nat>, x': nat)
    requires c < w.Size() && x < w.Size() && Settling(w, lo, s, t, done, c, x)
    requires x' == w.Next(x) && c !in done && x' !in done
    requires t' == Exchange(t, lo + x', lo + c) && done' == done + {x'}
    ensures Settling(w, lo, s, t', done', c, x')
  {
    assert w.Source(x') == x;
  }

  // ----- which places the cycles have settled

  /** The places of the first i of g cycles. */
  ghost function Early(w: Window, g: nat, i: nat): set<nat>
    requires g > 0
  {
    set r: nat | r < w.Size() && r % g < i
  }

  /** The places of the cycle from c after j moves. */
  ghost function Visited(w: Window, c: nat, j: nat): set<nat>
    requires c < w.Size()
  {
    if j == 0 then {} else Visited(w, c, j - 1) + {w.Pos(c, j)}
  }

  lemma {:induction false} VisitedPlaces(w: Window, c: nat, j: nat, k: nat)
    requires c < w.Size() && 0 < k <= j
    ensures w.Pos(c, k) in Visited(w, c, j)
  {
    if k < j { VisitedPlaces(w, c, j - 1, k); }
  }

  lemma {:induction false} NotVisited(w: Window, c: nat, j: nat, r: nat)
    requires c < w.Size() && forall k: nat :: 0 < k <= j ==> w.Pos(c, k) != r
    ensures r !in Visited(w, c, j)
  {
    if j > 0 {
      assert w.Pos(c, j) != r;
      NotVisited(w, c, j - 1, r);
    }
  }

  lemma {:induction false} VisitedInside(w: Window, c: nat, j: nat)
    requires c < w.Size()
    ensures forall r: nat :: r in Visited(w, c, j) ==> r < w.Size()
  {
    if j > 0 { VisitedInside(w, c, j - 1); }
  }

  lemma NotYetVisited(w: Window, c: nat, n: nat, j: nat)
    requires w.Orbit(c, n) && j < n
    ensures c !in Visited(w, c, j) && w.Pos(c, j + 1) !in Visited(w, c, j)
  {
    assert w.Pos(c, 0) == c;
    forall k: nat | 0 < k <= j ensures w.Pos(c, k) != c && w.Pos(c, k) != w.Pos(c, j + 1) {
      assert w.Pos(c, 0) != w.Pos(c, k);
      assert j + 1 < n ==> w.Pos(c, k) != w.Pos(c, j + 1);
    }
    NotVisited(w, c, j, c);
    NotVisited(w, c, j, w.Pos(c, j + 1));
  }

  /** A cycle settles its whole class. */
  lemma CycleCompletes(R: Ring, c: nat, i: nat)
    requires R.Valid() && c < R.Size() && c % R.g == i && R.w.Pos(c, R.Length()) == c && R.Length() > 0
    ensures Early(R.w, R.g, i) + Visited(R.w, c, R.Length()) == Early(R.w, R.g, i + 1)
  {
    forall r: nat | r < R.Size() ensures r in Visited(R.w, c, R.Length()) <==> r % R.g == i { VisitsClass(R, c, i, r); }
    VisitedInside(R.w, c, R.Length());
  }

  lemma VisitsClass(R: Ring, c: nat, i: nat, r: nat)
    requires R.Valid() && c < R.Size() && c % R.g == i && R.w.Pos(c, R.Length()) == c && R.Length() > 0 && r < R.Size()
    ensures r in Visited(R.w, c, R.Length()) <==> r % R.g == i
  {
    if r % R.g == i {
      var k := PosCovers(R, c, r);
      assert R.w.Pos(c, 0) == c;
      VisitedPlaces(R.w, c, R.Length(), if k == 0 then R.Length() else k);
    } else {
      forall k: nat | 0 < k <= R.Length() ensures R.w.Pos(c, k) != r { PosClass(R, c, k); }
      NotVisited(R.w, c, R.Length(), r);
    }
  }

  // ----- the cycles as the loops run them

  /** t after j exchanges of the cycle from place c. */
  ghost function Spin<T>(w: Window, lo: nat, t: seq<T>, c: nat, j: nat): (t': seq<T>)
    requires lo + w.Size() <= |t| && c < w.Size()
    ensures |t'| == |t|
  {
    if j == 0 then t else Exchange(Spin(w, lo, t, c, j - 1), lo + w.Pos(c, j), lo + c)
  }

  /** s after i whole cycles of length n. */
  ghost function Spun<T>(w: Window, lo: nat, s: seq<T>, n: nat, i: nat): (t: seq<T>)
    requires lo + w.Size() <= |s| && i <= w.q
    ensures |t| == |s|
  {
    if i == 0 then s else Spin(w, lo, Spun(w, lo, s, n, i - 1), w.p + (i - 1), n)
  }

  ghost function DoneAfter(w: Window, done: set<nat>, c: nat, j: nat): set<nat>
    requires c < w.Size()
  {
    done + Visited(w, c, j)
  }

  /** Every exchange of the cycle settles a new place. */
  ghost predicate Fresh(w: Window, done: set<nat>, c: nat, n: nat)
    requires c < w.Size()
  {
    forall j: nat :: j < n ==> c !in DoneAfter(w, done, c, j) && w.Pos(c, j + 1) !in DoneAfter(w, done, c, j)
  }

  lemma OrbitIsFresh(w: Window, done: set<nat>, c: nat, n: nat)
    requires w.Orbit(c, n) && forall k: nat :: k <= n ==> w.Pos(c, k) !in done
    ensures Fresh(w, done, c, n)
  {
    forall j: nat | j < n ensures c !in DoneAfter(w, done, c, j) && w.Pos(c, j + 1) !in DoneAfter(w, done, c, j) {
      NotYetVisited(w, c, n, j);
      assert w.Pos(c, 0) == c;
    }
  }

  lemma {:induction false} SpinSettles<T>(w: Window, lo: nat, s: seq<T>, t: seq<T>, done: set<nat>, c: nat, n: nat, j: nat)
    requires c < w.Size() && Settled(w, lo, s, t, done) && Fresh(w, done, c, n) && 0 < j <= n
    ensures Settling(w, lo, s, Spin(w, lo, t, c, j), DoneAfter(w, done, c, j), c, w.Pos(c, j))
  {
    if j == 1 {
      assert DoneAfter(w, done, c, 0) == done;
      assert Settling(w, lo, s, t, done, c, c);
    } else {
      SpinSettles(w, lo, s, t, done, c, n, j - 1);
    }
    assert DoneAfter(w, done, c, j) == DoneAfter(w, done, c, j - 1) + {w.Pos(c, j)};
    ExchangeSettles(w, lo, s, Spin(w, lo, t, c, j - 1), DoneAfter(w, done, c, j - 1), c, w.Pos(c, j - 1),
                    Spin(w, lo, t, c, j), DoneAfter(w, done, c, j), w.Pos(c, j));
  }

  lemma CycleSettles<T>(R: Ring, lo: nat, s: seq<T>, t: seq<T>, i: nat, c: nat, n: nat, t': seq<T>)
    requires R.Valid() && i < R.g && lo + R.Size() <= |t| && c == R.w.p + i < R.Size() && n == R.Length()
    requires Settled(R.w, lo, s, t, Early(R.w, R.g, i)) && t' == Spin(R.w, lo, t, c, n)
    ensures Settled(R.w, lo, s, t', Early(R.w, R.g, i + 1))
  {
    StartOfCycle(R, i);
    CycleIsOrbit(R, c);
    var done := Early(R.w, R.g, i);
    forall k: nat | k <= n ensures R.w.Pos(c, k) !in done { PosClass(R, c, k); }
    OrbitIsFresh(R.w, done, c, n);
    SpinSettles(R.w, lo, s, t, done, c, n, n);
    CycleCompletes(R, c, i);
    EndOfCycle(R.w, lo, s, t', DoneAfter(R.w, done, c, n), c, Early(R.w, R.g, i + 1));
  }

  lemma EndOfCycle<T>(w: Window, lo: nat, s: seq<T>, t: seq<T>, done: set<nat>, c: nat, done': set<nat>)
    requires Settling(w, lo, s, t, done, c, c) && done == done'
    ensures Settled(w, lo, s, t, done')
  {
  }

  lemma {:induction false} SpunSettles<T>(R: Ring, lo: nat, s: seq<T>, n: nat, i: nat)
    requires R.Valid() && lo + R.Size() <= |s| && i <= R.g <= R.w.q && n == R.Length()
    ensures Settled(R.w, lo, s, Spun(R.w, lo, s, n, i), Early(R.w, R.g, i))
  {
    if i > 0 {
      SpunSettles(R, lo, s, n, i - 1);
      CycleSettles(R, lo, s, Spun(R.w, lo, s, n, i - 1), i - 1, R.w.p + (i - 1), n, Spun(R.w, lo, s, n, i));
    }
  }

  /** Following all the cycles is swapping the blocks. */
  lemma CyclesSwapBlocks<T>(p: nat, q: nat, lo: nat, s: seq<T>, n: nat, t: seq<T>)
    requires p > 0 && q > 0 && lo + p + q <= |s| && Gcd(p, q) <= q && 0 < Gcd(p, q) && n == (p + q) / Gcd(p, q)
    requires t == Spun(Window(p, q), lo, s, n, Gcd(p, q))
    ensures t == BlockSwap(s, lo, p, q)
  {
    var R := RingOf(Window(p, q));
    SpunSettles(R, lo, s, n, R.g);
    AllSettled(R.w, lo, s, t, Early(R.w, R.g, R.g));
  }

  lemma CyclesFit(w: Window)
    requires w.p > 0 && w.q > 0
    ensures 0 < Gcd(w.p, w.q) <= w.q && w.Size() / Gcd(w.p, w.q) > 0
  {
    var R := RingOf(w);
    SizeIs(R);
    StartOfCycle(R, R.g - 1);
  }

  lemma AllSettled<T>(w: Window, lo: nat, s: seq<T>, t: seq<T>, done: set<nat>)
    requires Settled(w, lo, s, t, done) && forall r: nat :: r < w.Size() ==> r in done
    ensures t == BlockSwap(s, lo, w.p, w.q)
  {
    forall x: nat | x < |s| ensures t[x] == BlockSwap(s, lo, w.p, w.q)[x] {
      if lo <= x < lo + w.Size() {
        assert x - lo in done && t[lo + (x - lo)] == s[lo + w.Source(x - lo)];
      }
    }
  }

  // ----- what a scan is to make of the arguments

  /** An argument that Permute stops at. */
  predicate IsOption(arg: string) { |arg| > 1 && arg[0] == '-' }

  /** The elements of s whose mark is b, in order. */
  function Pick<T>(s: seq<T>, marks: seq<bool>, b: bool): seq<T>
    requires |s| == |marks|
  {
    if s == [] then []
    else Pick(s[..|s| - 1], marks[..|s| - 1], b) + if marks[|s| - 1] == b then [s[|s| - 1]] else []
  }

  lemma {:induction false} PickAppend<T>(s: seq<T>, t: seq<T>, marks: seq<bool>, marks': seq<bool>, b: bool)
    requires |s| == |marks| && |t| == |marks'|
    ensures Pick(s + t, marks + marks', b) == Pick(s, marks, b) + Pick(t, marks', b)
  {
    if t == [] {
      assert s + t == s && marks + marks' == marks;
    } else {
      PickAppend(s, t[..|t| - 1], marks, marks'[..|t| - 1], b);
      assert (s + t)[..|s + t| - 1] == s + t[..|t| - 1];
      assert (marks + marks')[..|s + t| - 1] == marks + marks'[..|t| - 1];
    }
  }

  function Repeat(b: bool, n: nat): seq<bool> { seq(n, _ => b) }

  lemma {:induction false} PickRepeat<T>(s: seq<T>, b: bool)
    ensures Pick(s, Repeat(b, |s|), b) == s && Pick(s, Repeat(b, |s|), !b) == []
  {
    if s != [] {
      PickRepeat(s[..|s| - 1], b);
      assert Repeat(b, |s|)[..|s| - 1] == Repeat(b, |s| - 1);
    }
  }

  lemma {:induction false} PickKeepsAll<T>(s: seq<T>, marks: seq<bool>)
    requires |s| == |marks|
    ensures multiset(Pick(s, marks, true) + Pick(s, marks, false)) == multiset(s)
    ensures |Pick(s, marks, true)| + |Pick(s, marks, false)| == |s|
  {
    if s != [] {
      var s', marks' := s[..|s| - 1], marks[..|s| - 1];
      PickKeepsAll(s', marks');
      assert s == s' + [s[|s| - 1]];
      AddOne(Pick(s', marks', true), Pick(s', marks', false), s[|s| - 1]);
    }
  }

  lemma AddOne<T>(a: seq<T>, b: seq<T>, x: T)
    ensures multiset((a + [x]) + b) == multiset(a + b) + multiset{x} == multiset(a + (b + [x]))
  {
    assert a + (b + [x]) == a + b + [x];
  }

  /** An element comes after just those picked elements that were before it. */
  lemma {:induction false} PickAt<T>(s: seq<T>, marks: seq<bool>, b: bool, i: nat)
    requires |s| == |marks| && i < |s| && marks[i] == b
    ensures |Pick(s[..i], marks[..i], b)| < |Pick(s, marks, b)|
    ensures Pick(s, marks, b)[|Pick(s[..i], marks[..i], b)|] == s[i]
  {
    var n := |s| - 1;
    if i < n {
      PickAt(s[..n], marks[..n], b, i);
      assert s[..n][..i] == s[..i] && marks[..n][..i] == marks[..i];
    }
  }

  // ----- the arguments in the middle of a scan

  /** Of the first |marks| original arguments, those consumed stand, in order, around a block [start, end) of those skipped,
      in order; the rest is untouched. */
  ghost predicate Parted(orig: seq<string>, marks: seq<bool>, args: seq<string>, start: nat, end: nat) {
    && start <= end <= |marks| <= |args| == |orig|
    && args[..start] + args[end..|marks|] == Pick(orig[..|marks|], marks, true)
    && args[start..end] == Pick(orig[..|marks|], marks, false)
    && args[|marks|..] == orig[|marks|..]
    && NoOptions(args[start..end])
  }

  ghost predicate NoOptions(args: seq<string>) { forall x: nat :: x < |args| ==> !IsOption(args[x]) }

  /** Swapping the blocks moves the skipped arguments behind all that were consumed. */
  lemma SwapParts(orig: seq<string>, marks: seq<bool>, args: seq<string>, start: nat, end: nat)
    requires Parted(orig, marks, args, start, end)
    ensures Parted(orig, marks, BlockSwap(args, start, end - start, |marks| - end), start + |marks| - end, |marks|)
  {
    var n, m := |marks|, start + |marks| - end;
    var args' := BlockSwap(args, start, end - start, n - end);
    assert args'[..m] + args'[n..n] == args[..start] + args[end..n];
    assert args'[m..n] == args[start..end];
    assert args'[n..] == args[n..];
  }

  lemma PickGrow(orig: seq<string>, marks: seq<bool>, k: nat, b: bool)
    requires |marks| <= k <= |orig|
    ensures Pick(orig[..k], marks + Repeat(b, k - |marks|), b) == Pick(orig[..|marks|], marks, b) + orig[|marks|..k]
    ensures Pick(orig[..k], marks + Repeat(b, k - |marks|), !b) == Pick(orig[..|marks|], marks, !b)
  {
    var n := |marks|;
    assert orig[..k] == orig[..n] + orig[n..k];
    PickAppend(orig[..n], orig[n..k], marks, Repeat(b, k - n), b);
    PickAppend(orig[..n], orig[n..k], marks, Repeat(b, k - n), !b);
    PickRepeat(orig[n..k], b);
  }

  lemma RestAgrees(orig: seq<string>, args: seq<string>, n: nat, k: nat)
    requires n <= k <= |args| == |orig| && args[n..] == orig[n..]
    ensures args[n..k] == orig[n..k] && args[k..] == orig[k..]
  {
    assert orig[n..k] == orig[n..][..k - n] == args[n..][..k - n] == args[n..k];
    assert args[k..] == args[n..][k - n..] == orig[n..][k - n..] == orig[k..];
  }

  lemma SkipKeepsParted(orig: seq<string>, marks: seq<bool>, args: seq<string>, start: nat, k: nat)
    requires Parted(orig, marks, args, start, |marks|) && |marks| <= k <= |args| && NoOptions(args[|marks|..k])
    ensures Parted(orig, marks + Repeat(false, k - |marks|), args, start, k)
    ensures orig[|marks|..k] == args[|marks|..k]
  {
    var n := |marks|;
    RestAgrees(orig, args, n, k);
    PickGrow(orig, marks, k, false);
    assert args[start..k] == args[start..n] + args[n..k];
    assert args[..start] + args[k..k] == args[..start] + args[n..n];
  }

  lemma ConsumeKeepsParted(orig: seq<string>, marks: seq<bool>, args: seq<string>, start: nat, end: nat, k: nat)
    requires Parted(orig, marks, args, start, end) && |marks| <= k <= |args|
    ensures Parted(orig, marks + Repeat(true, k - |marks|), args, start, end)
  {
    var n := |marks|;
    RestAgrees(orig, args, n, k);
    PickGrow(orig, marks, k, true);
    assert args[..start] + args[end..k] == args[..start] + args[end..n] + args[n..k];
  }

  const MARKER: string := "--"

  /** The marks of a scan that consumes width(rest) arguments at each option and skips everything else. The end marker is
      consumed; what follows it is skipped, except that directly after a marker before which nothing was skipped an option
      is still taken as one, and a second marker is consumed too. */
  function Marks(args: seq<string>, width: seq<string> -> nat, skipped: bool): (marks: seq<bool>)
    ensures |marks| == |args|
    decreases |args|
  {
    if args == [] then []
    else if args[0] == MARKER then
      if skipped || |args| == 1 || !IsOption(args[1]) then [true] + Repeat(false, |args| - 1)
      else if args[1] == MARKER then [true] + [true] + Repeat(false, |args| - 2)
      else [true] + Marks(args[1..], width, skipped)
    else if IsOption(args[0]) then
      var k := Clip(width(args), |args|);
      Repeat(true, k) + Marks(args[k..], width, skipped)
    else [false] + Marks(args[1..], width, true)
  }

  /** The marker ends the options exactly if something was skipped before it or no option comes next. */
  lemma MarkerEndsOptions(rest: seq<string>, width: seq<string> -> nat, skipped: bool)
    ensures Marks([MARKER] + rest, width, skipped) == [true] + Repeat(false, |rest|)
            <==> skipped || rest == [] || !IsOption(rest[0])
  {
    var args := [MARKER] + rest;
    assert args[1..] == rest;
    if !skipped && rest != [] && IsOption(rest[0]) {
      assert args[1] == rest[0];
      assert Marks(args, width, skipped)[1];
      assert !([true] + Repeat(false, |rest|))[1];
    }
  }

  lemma {:induction false} MarksSkip(args: seq<string>, width: seq<string> -> nat, skipped: bool, k: nat)
    requires k <= |args| && NoOptions(args[..k])
    ensures Marks(args, width, skipped) == Repeat(false, k) + Marks(args[k..], width, skipped || k > 0)
  {
    if k > 0 {
      assert !IsOption(args[..k][0]);
      SkipFirst(args, k);
      MarksSkip(args[1..], width, true, k - 1);
      RepeatMore(k, Marks(args[k..], width, true));
    } else {
      assert args[0..] == args && Repeat(false, 0) == [];
    }
  }

  lemma SkipFirst(args: seq<string>, k: nat)
    requires 0 < k <= |args| && NoOptions(args[..k])
    ensures args[1..][k - 1..] == args[k..] && NoOptions(args[1..][..k - 1])
  {
    var rest := args[1..][..k - 1];
    forall x: nat | x < k - 1 ensures !IsOption(rest[x]) { assert rest[x] == args[..k][x + 1]; }
  }

  lemma RepeatMore(k: nat, rest: seq<bool>)
    requires k > 0
    ensures Repeat(false, k) + rest == [false] + (Repeat(false, k - 1) + rest)
  {
  }

  function Clip(k: nat, n: nat): (r: nat)
    requires n > 0
    ensures 1 <= r <= n
  {
    if k < 1 then 1 else if k > n then n else k
  }

  /** The marks of a whole scan that has made these so far. */
  function AllMarks(orig: seq<string>, marks: seq<bool>, skipped: bool, width: seq<string> -> nat): seq<bool>
    requires |marks| <= |orig|
  {
    marks + Marks(orig[|marks|..], width, skipped)
  }

  lemma SkippedMarks(orig: seq<string>, marks: seq<bool>, marks': seq<bool>, skipped: bool, width: seq<string> -> nat)
    requires Skipped(orig, marks, marks')
    ensures AllMarks(orig, marks', skipped || |marks'| > |marks|, width) == AllMarks(orig, marks, skipped, width)
  {
    var n, k := |marks|, |marks'| - |marks|;
    Suffix(orig, n, n + k);
    MarksSkip(orig[n..], width, skipped, k);
    Append3(marks, Repeat(false, k), Marks(orig[n + k..], width, skipped || k > 0));
  }

  lemma Suffix(s: seq<string>, n: nat, k: nat)
    requires n <= k <= |s|
    ensures s[n..][..k - n] == s[n..k] && s[n..][k - n..] == s[k..]
  {
  }

  lemma Append3(a: seq<bool>, b: seq<bool>, c: seq<bool>)
    ensures (a + b) + c == a + (b + c)
  {
  }

  lemma ConsumedMarks(orig: seq<string>, marks: seq<bool>, skipped: bool, k: nat, width: seq<string> -> nat)
    requires |marks| < |orig| && IsOption(orig[|marks|]) && orig[|marks|] != MARKER
    requires k == Clip(width(orig[|marks|..]), |orig| - |marks|)
    ensures AllMarks(orig, marks + Repeat(true, k), skipped, width) == AllMarks(orig, marks, skipped, width)
  {
    var n := |marks|;
    Suffix(orig, n, n + k);
    Append3(marks, Repeat(true, k), Marks(orig[n + k..], width, skipped));
  }

  // ----- at the end marker

  /** The marks if the options end behind a marker at place |marks| before which nothing was skipped. */
  ghost function AfterMarker(orig: seq<string>, marks: seq<bool>): seq<bool>
    requires |marks| + 1 < |orig|
  {
    if !IsOption(orig[|marks| + 1]) then marks + [true] + Repeat(false, |orig| - |marks| - 1)
    else marks + [true] + [true] + Repeat(false, |orig| - |marks| - 2)
  }

  /** What becomes of the marker and the arguments after it. */
  lemma MarkerMarks(orig: seq<string>, marks: seq<bool>, skipped: bool, width: seq<string> -> nat)
    requires |marks| < |orig| && orig[|marks|] == MARKER
    ensures var n := |marks| + 1;
      AllMarks(orig, marks, skipped, width) ==
        if skipped || n == |orig| then marks + [true] + Repeat(false, |orig| - n)
        else if !IsOption(orig[n]) || orig[n] == MARKER then AfterMarker(orig, marks)
        else AllMarks(orig, marks + [true], skipped, width)
  {
    var n := |marks| + 1;
    var args := orig[|marks|..];
    assert args[0] == MARKER && args[1..] == orig[n..] && (n < |orig| ==> args[1] == orig[n]);
  }

  /** Where NextChar stops, having skipped up to marks m: at an option, or at the end with the marks of the whole scan. */
  ghost predicate Outcome(orig: seq<string>, m: seq<bool>, skipped: bool, marks: seq<bool>, eof: bool) {
    && |m| <= |orig|
    && if |m| == |orig| then eof && marks == m
       else if orig[|m|] != MARKER then !eof && marks == m && IsOption(orig[|m|])
       else if skipped || |m| + 1 == |orig| then eof && marks == m + [true] + Repeat(false, |orig| - |m| - 1)
       else if !IsOption(orig[|m| + 1]) || orig[|m| + 1] == MARKER then eof && marks == AfterMarker(orig, m)
       else !eof && marks == m + [true]
  }

  lemma OutcomeMarks(orig: seq<string>, marks: seq<bool>, m: seq<bool>, skipped: bool, marks': seq<bool>, eof: bool,
                     width: seq<string> -> nat)
    requires Skipped(orig, marks, m) && Outcome(orig, m, skipped || |m| > |marks|, marks', eof)
    ensures |marks| <= |marks'| <= |orig|
    ensures AllMarks(orig, marks, skipped, width)
         == if eof then marks' else AllMarks(orig, marks', skipped || |m| > |marks|, width)
  {
    SkippedMarks(orig, marks, m, skipped, width);
    if |m| == |orig| {
      assert orig[|m|..] == [];
    } else if orig[|m|] == MARKER {
      MarkerMarks(orig, m, skipped || |m| > |marks|, width);
    }
  }

  lemma AllConsumed(orig: seq<string>, marks: seq<bool>, args: seq<string>)
    requires Parted(orig, marks, args, |marks|, |marks|) && |marks| == |orig|
    ensures Finish(orig, marks, args, |marks|)
  {
    RestSkipped(orig, marks, args, |marks|);
    assert marks + Repeat(false, 0) == marks;
  }

  /** Everything from place |marks| on is skipped. */
  lemma RestSkipped(orig: seq<string>, marks: seq<bool>, args: seq<string>, start: nat)
    requires Parted(orig, marks, args, start, |marks|)
    ensures Finish(orig, marks + Repeat(false, |orig| - |marks|), args, start)
  {
    var n := |marks|;
    PickGrow(orig, marks, |orig|, false);
    assert orig[..|orig|] == orig && orig[n..|orig|] == orig[n..];
    assert args[..start] + args[n..n] == args[..start];
    assert args == args[..start] + (args[start..n] + args[n..]);
  }

  /** The skipped block moves behind the marker. */
  lemma MarkerSwaps(orig: seq<string>, marks: seq<bool>, args: seq<string>, start: nat)
    requires Parted(orig, marks, args, start, |marks|) && |marks| < |orig|
    ensures Parted(orig, marks + [true], BlockSwap(args, start, |marks| - start, 1), start + 1, |marks| + 1)
  {
    var n := |marks|;
    ConsumeKeepsParted(orig, marks, args, start, n, n + 1);
    assert Repeat(true, 1) == [true];
    SwapParts(orig, marks + [true], args, start, n);
  }

  lemma MarkerFinish(orig: seq<string>, marks: seq<bool>, args: seq<string>, start: nat, args': seq<string>)
    requires Parted(orig, marks, args, start, |marks|) && start < |marks| < |orig|
    requires args' == BlockSwap(args, start, |marks| - start, 1)
    ensures Finish(orig, marks + [true] + Repeat(false, |orig| - |marks| - 1), args', start + 1) && !IsOption(args'[start + 1])
  {
    MarkerSwaps(orig, marks, args, start);
    RestSkipped(orig, marks + [true], args', start + 1);
    assert args'[start + 1] == args'[start + 1..|marks| + 1][0];
  }

  lemma MarkerPassed(orig: seq<string>, marks: seq<bool>, args: seq<string>)
    requires Parted(orig, marks, args, |marks|, |marks|) && |marks| < |orig|
    ensures Parted(orig, marks + [true], args, |marks|, |marks|) && Parted(orig, marks + [true], args, |marks| + 1, |marks| + 1)
  {
    var n := |marks|;
    ConsumeKeepsParted(orig, marks, args, n, n, n + 1);
    assert Repeat(true, 1) == [true];
    MarkerSwaps(orig, marks, args, n);
    NoSwap(args, n);
  }

  lemma NoSwap(args: seq<string>, start: nat)
    requires start < |args|
    ensures BlockSwap(args, start, 0, 1) == args
  {
  }

  lemma Finished(orig: seq<string>, marks: seq<bool>, args: seq<string>, start: nat)
    requires Parted(orig, marks, args, start, |marks|) && |marks| == |orig|
    ensures args == Pick(orig, marks, true) + Pick(orig, marks, false) && start == |Pick(orig, marks, true)|
  {
    var n := |marks|;
    assert orig[..n] == orig && args[..start] + args[n..n] == args[..start] && args[..start] + args[start..n] == args;
  }

  /** The marks grew by arguments skipped, none of them an option. */
  ghost predicate Skipped(orig: seq<string>, marks: seq<bool>, marks': seq<bool>) {
    && |marks| <= |marks'| <= |orig| && marks' == marks + Repeat(false, |marks'| - |marks|)
    && NoOptions(orig[|marks|..|marks'|])
  }

  /** What was consumed stands first, then what was skipped, and `start` is the boundary. */
  ghost predicate Finish(orig: seq<string>, marks: seq<bool>, args: seq<string>, start: nat) {
    && |marks| == |orig| && args == Pick(orig, marks, true) + Pick(orig, marks, false)
    && start == |Pick(orig, marks, true)|
  }

  /** The state Permute leaves when it has skipped to place k. */
  lemma PermuteEnds(orig: seq<string>, marks: seq<bool>, args: seq<string>, start: nat, k: nat)
    requires Parted(orig, marks, args, start, |marks|) && |marks| <= k <= |args| && NoOptions(args[|marks|..k])
    ensures var marks' := marks + Repeat(false, k - |marks|);
      && |marks'| == k && Parted(orig, marks', args, start, k) && Skipped(orig, marks, marks')
      && (k == |args| ==> Finish(orig, marks', args, start))
      && (k < |args| ==> args[k..] == orig[k..] && args[k] == orig[k])
  {
    SkipKeepsParted(orig, marks, args, start, k);
    if k == |args| {
      Finished(orig, marks + Repeat(false, k - |marks|), args, start);
    } else {
      assert args[k..][0] == orig[k..][0];
    }
  }

  class GetOpt {
    const argv: array<string>
    const argc: nat
    var optInd: nat
    var nonoptStart: nat
    var nonoptEnd: nat

    ghost const original: seq<string>
    ghost var marks: seq<bool>       // what became of original[..optInd]: consumed or skipped

    ghost predicate Valid()
      reads this, argv
    {
      && argc == argv.Length && |marks| == optInd
      && Parted(original, marks, argv[..], nonoptStart, nonoptEnd)
    }

    /** Arguments before skipArg count as consumed. */
    constructor (args: array<string>, skipArg: nat)
      requires skipArg <= args.Length
      ensures Valid() && argv == args && optInd == nonoptStart == nonoptEnd == skipArg
      ensures original == args[..] && marks == Repeat(true, skipArg)
    {
      argv, argc := args, args.Length;
      optInd, nonoptStart, nonoptEnd := skipArg, skipArg, skipArg;
      original := args[..];
      marks := Repeat(true, skipArg);
      new;
      PickRepeat(argv[..skipArg], true);
      assert argv[..][..skipArg] == argv[..skipArg];
      assert argv[..][..skipArg] + argv[..][skipArg..skipArg] == argv[..skipArg];
    }

    method Gcb(x: nat, y: nat) returns (g: nat)
      ensures g == Gcd(x, y)
    {
      var a, b := x, y;
      while b != 0
        invariant Gcd(a, b) == Gcd(x, y)
        decreases b
      {
        a, b := b, a % b;
      }
      g := a;
    }

    method Swap(x: nat, y: nat)
      requires x < argv.Length && y < argv.Length
      modifies argv
      ensures argv[..] == Exchange(old(argv[..]), x, y)
    {
      var swap := argv[x];
      argv[x] := argv[y];
      argv[y] := swap;
    }

    /** The inner loop of PermuteArgs. */
    method FollowCycle(start: nat, length: nat, nonopts: nat, opts: nat)
      requires nonoptEnd == nonoptStart + nonopts <= start < nonoptEnd + opts <= argv.Length
      modifies argv
      ensures argv[..] == Spin(Window(nonopts, opts), nonoptStart, old(argv[..]), start - nonoptStart, length)
    {
      ghost var w, lo, c := Window(nonopts, opts), nonoptStart, start - nonoptStart;
      var pos := start;
      for j := 0 to length
        invariant pos == lo + w.Pos(c, j) && argv[..] == Spin(w, lo, old(argv[..]), c, j)
      {
        if pos >= nonoptEnd {
          pos := pos - nonopts;
        } else {
          pos := pos + opts;
        }
        Swap(pos, start);
      }
    }

    /** The outer loop of PermuteArgs. */
    method FollowCycles(cycles: nat, length: nat, nonopts: nat, opts: nat)
      requires nonoptEnd == nonoptStart + nonopts <= nonoptEnd + opts <= argv.Length && cycles <= opts
      modifies argv
      ensures argv[..] == Spun(Window(nonopts, opts), nonoptStart, old(argv[..]), length, cycles)
    {
      for i := 0 to cycles
        invariant argv[..] == Spun(Window(nonopts, opts), nonoptStart, old(argv[..]), length, i)
      {
        FollowCycle(nonoptEnd + i, length, nonopts, opts);
      }
    }

    /** The skipped block and the consumed block after it change places; both keep their order. */
    method PermuteArgs()
      requires nonoptStart < nonoptEnd < optInd <= argv.Length
      modifies this`optInd, argv
      ensures optInd == nonoptStart + (old(optInd) - nonoptEnd)
      ensures argv[..] == BlockSwap(old(argv[..]), nonoptStart, nonoptEnd - nonoptStart, old(optInd) - nonoptEnd)
    {
      ghost var was := argv[..];
      var nonopts, opts := nonoptEnd - nonoptStart, optInd - nonoptEnd;
      var cycles := Gcb(nonopts, opts);
      CyclesFit(Window(nonopts, opts));
      var length := (optInd - nonoptStart) / cycles;
      optInd := optInd - nonopts;
      FollowCycles(cycles, length, nonopts, opts);
      CyclesSwapBlocks(nonopts, opts, nonoptStart, was, length, argv[..]);
    }

    /** Stopped at an option. */
    ghost predicate AtOption()
      reads this, argv
    {
      && Valid() && optInd < argc && argv[optInd..] == original[optInd..] && IsOption(original[optInd]) && original[optInd] != MARKER
    }

    /** Some argument has been skipped. */
    predicate AnySkipped()
      reads this
    {
      nonoptStart < nonoptEnd
    }

    /** Through: what was consumed, then what was skipped, and optInd between the two. */
    ghost predicate AtEnd()
      reads this, argv
    {
      |marks| == |original| == argc && Finish(original, marks, argv[..], optInd)
    }

    /** The beginning of Permute: bring the skipped arguments together. */
    method Regroup()
      requires Valid() && (nonoptStart < nonoptEnd ==> nonoptEnd < optInd)
      modifies this`optInd, this`nonoptStart, argv
      ensures Parted(original, marks, argv[..], nonoptStart, |marks|) && optInd == nonoptStart
      ensures nonoptStart < |marks| <==> old(AnySkipped())
    {
      ghost var was, n := argv[..], optInd;
      SwapParts(original, marks, was, nonoptStart, nonoptEnd);
      if nonoptStart != nonoptEnd && nonoptStart != optInd {
        PermuteArgs();
      } else {
        assert was == BlockSwap(was, nonoptStart, 0, n - nonoptEnd);
      }
      nonoptStart := optInd;
    }

    /** The loop of Permute; up to n there are no options. */
    method SkipToOption(ghost n: nat)
      requires optInd <= n <= argc == argv.Length && NoOptions(argv[optInd..n])
      modifies this`optInd
      ensures n <= optInd <= argc && NoOptions(argv[n..optInd]) && (optInd < argc ==> IsOption(argv[optInd]))
    {
      ghost var first := optInd;
      while optInd < argc && !IsOption(argv[optInd])
        invariant old(optInd) <= optInd <= argc
        invariant forall x: nat :: old(optInd) <= x < optInd ==> !IsOption(argv[x])
      {
        optInd := optInd + 1;
      }
      assert forall x: nat :: first <= x < n ==> argv[x] == argv[first..n][x - first];
    }

    /** Skip to the next option, or to the end. */
    method SkipArgs()
      requires Parted(original, marks, argv[..], nonoptStart, |marks|) && optInd == nonoptStart && argc == argv.Length
      modifies this`optInd, this`nonoptEnd, this`marks
      ensures Skipped(original, old(marks), marks) && |marks| == optInd == nonoptEnd
      ensures Parted(original, marks, argv[..], nonoptStart, nonoptEnd)
      ensures optInd == argc ==> Finish(original, marks, argv[..], nonoptStart)
      ensures optInd < argc ==> argv[optInd..] == original[optInd..] && IsOption(original[optInd])
    {
      ghost var n := |marks|;
      SkipToOption(n);
      nonoptEnd := optInd;
      PermuteEnds(original, marks, argv[..], nonoptStart, optInd);
      marks := marks + Repeat(false, optInd - n);
    }

    /** At the end marker: it is consumed, and moves before what was skipped. Then the rest is skipped, unless nothing has
        been skipped before. */
    method PassMarker()
      requires Parted(original, marks, argv[..], nonoptStart, nonoptEnd) && nonoptEnd == optInd == |marks| < argc == argv.Length
      modifies this`optInd, this`marks, argv
      ensures AnySkipped() ==> marks == old(marks) + [true] + Repeat(false, argc - old(optInd) - 1)
      ensures AnySkipped() ==> Finish(original, marks, argv[..], optInd) && optInd < argc && !IsOption(argv[optInd])
      ensures !AnySkipped() ==> argv[..] == old(argv[..]) && optInd == old(optInd) + 1 && marks == old(marks) + [true]
      ensures !AnySkipped() ==> Parted(original, marks, argv[..], optInd, optInd) && Valid()
    {
      ghost var was, args, n := marks, argv[..], optInd;
      optInd := optInd + 1;
      if nonoptStart != nonoptEnd && nonoptEnd != optInd {
        PermuteArgs();
        MarkerFinish(original, was, args, nonoptStart, argv[..]);
        marks := was + [true] + Repeat(false, argc - n - 1);
      } else {
        MarkerPassed(original, was, args);
        marks := was + [true];
      }
    }

    /** Where Permute stops, having skipped up to marks m: at the end, at an option, or past an end marker. */
    ghost predicate Stopped(m: seq<bool>, eof: bool)
      reads this, argv
    {
      && |m| <= |original| == argc == argv.Length
      && if |m| == argc then eof && marks == m && AtEnd()
         else if original[|m|] != MARKER then !eof && marks == m && AtOption() && nonoptEnd == optInd
         else if AnySkipped() then
           !eof && marks == m + [true] + Repeat(false, argc - |m| - 1) && AtEnd() && optInd < argc && !IsOption(argv[optInd])
         else
           && marks == m + [true] && Valid() && eof == (optInd == argc) && (eof ==> AtEnd())
           && Parted(original, marks, argv[..], optInd, optInd)
    }

    /** Skip to the next option, having moved what was skipped before behind what was consumed since; and past an end
        marker. */
    method Permute() returns (eof: bool, ghost m: seq<bool>)
      requires Valid() && (AnySkipped() ==> nonoptEnd < optInd)
      modifies this`optInd, this`nonoptStart, this`nonoptEnd, this`marks, argv
      ensures Skipped(original, old(marks), m) && AnySkipped() == (old(AnySkipped()) || |m| > old(|marks|))
      ensures Stopped(m, eof)
    {
      Regroup();
      SkipArgs();
      m := marks;
      eof := CheckMarker();
    }

    /** The rest of Permute. */
    method CheckMarker() returns (eof: bool)
      requires |marks| == optInd == nonoptEnd && Parted(original, marks, argv[..], nonoptStart, nonoptEnd) && argc == argv.Length
      requires optInd == argc ==> Finish(original, marks, argv[..], nonoptStart)
      requires optInd < argc ==> argv[optInd..] == original[optInd..] && IsOption(original[optInd])
      modifies this`optInd, this`marks, argv
      ensures Stopped(old(marks), eof)
    {
      assert optInd < argc ==> argv[optInd] == argv[optInd..][0] == original[optInd..][0];
      if optInd != argc && argv[optInd] == MARKER {
        PassMarker();
        if !AnySkipped() && optInd == argc { AllConsumed(original, marks, argv[..]); }
      }
      if optInd == argc {
        if nonoptStart != nonoptEnd {
          optInd := nonoptStart;
        }
        return true;
      }
      eof := false;
    }

    /** NextChar: false at an option, true at the end of the options. */
    method NextChar() returns (eof: bool, ghost m: seq<bool>)
      requires Valid() && (AnySkipped() ==> nonoptEnd < optInd)
      modifies this`optInd, this`nonoptStart, this`nonoptEnd, this`marks, argv
      ensures Skipped(original, old(marks), m) && AnySkipped() == (old(AnySkipped()) || |m| > old(|marks|))
      ensures Outcome(original, m, AnySkipped(), marks, eof)
      ensures if eof then AtEnd() else AtOption() && (AnySkipped() ==> nonoptEnd == optInd)
    {
      eof, m := Permute();
      if !eof {
        eof := Look(m);
      }
    }

    /** The rest of NextChar. */
    method Look(ghost m: seq<bool>) returns (eof: bool)
      requires Stopped(m, false)
      modifies this`optInd, this`marks
      ensures Outcome(original, m, AnySkipped(), marks, eof)
      ensures if eof then AtEnd() else AtOption() && (AnySkipped() ==> nonoptEnd == optInd)
    {
      assert original[|m|] != MARKER || !AnySkipped() ==> argv[optInd] == argv[optInd..][0] == original[optInd];
      if !IsOption(argv[optInd]) {
        if !AnySkipped() { SkipRest(); }
        return true;
      } else if argv[optInd] == MARKER {
        SecondMarker();
        return true;
      }
      eof := false;
    }

    method SecondMarker()
      requires |marks| == optInd < argc == argv.Length && Parted(original, marks, argv[..], optInd, optInd)
      modifies this`optInd, this`marks
      ensures marks == old(marks) + [true] + Repeat(false, argc - |old(marks)| - 1) && AtEnd()
    {
      MarkerPassed(original, marks, argv[..]);
      optInd := optInd + 1;
      marks := marks + [true];
      SkipRest();
    }

    /** All that is left is skipped. */
    ghost method SkipRest()
      requires |marks| == optInd <= argc == argv.Length && Parted(original, marks, argv[..], optInd, optInd)
      modifies this`marks
      ensures marks == old(marks) + Repeat(false, argc - |old(marks)|) && AtEnd()
    {
      RestSkipped(original, marks, argv[..], optInd);
      marks := marks + Repeat(false, argc - |marks|);
    }

    /** NextChar, in terms of the marks of the whole scan. */
    method NextOption(ghost width: seq<string> -> nat) returns (eof: bool)
      requires Valid() && (AnySkipped() ==> nonoptEnd < optInd)
      modifies this`optInd, this`nonoptStart, this`nonoptEnd, this`marks, argv
      ensures if eof then AtEnd() else AtOption() && (AnySkipped() ==> nonoptEnd == optInd)
      ensures old(|marks|) <= |marks| <= |original|
      ensures AllMarks(original, old(marks), old(AnySkipped()), width)
           == if eof then marks else AllMarks(original, marks, AnySkipped(), width)
    {
      ghost var m;
      eof, m := NextChar();
      OutcomeMarks(original, old(marks), m, old(AnySkipped()), marks, eof, width);
    }

    /** An option takes itself and perhaps what follows it. */
    method Consume(k: nat)
      requires Valid() && optInd + k <= argc
      modifies this`optInd, this`marks
      ensures Valid() && optInd == old(optInd) + k && marks == old(marks) + Repeat(true, k)
    {
      ConsumeKeepsParted(original, marks, argv[..], nonoptStart, nonoptEnd, optInd + k);
      optInd := optInd + k;
      marks := marks + Repeat(true, k);
    }

    /** A whole scan: each option consumes as many arguments as width says of the arguments from it on. In the end the
        arguments are those consumed, in their order, and then those skipped, in their order. */
    method Scan(width: seq<string> -> nat)
      requires Valid() && nonoptStart == nonoptEnd == optInd && marks == Repeat(true, optInd)
      modifies this`optInd, this`nonoptStart, this`nonoptEnd, this`marks, argv
      ensures marks == Repeat(true, old(optInd)) + Marks(original[old(optInd)..], width, false)
      ensures argv[..] == Pick(original, marks, true) + Pick(original, marks, false)
      ensures optInd == |Pick(original, marks, true)|
    {
      var eof := NextOption(width);
      while !eof
        invariant if eof then AtEnd() else AtOption() && (AnySkipped() ==> nonoptEnd == optInd)
        invariant |marks| <= |original|
        invariant AllMarks(original, old(marks), false, width) == if eof then marks else AllMarks(original, marks, AnySkipped(), width)
        decreases |original| - |marks|
      {
        eof := TakeOption(width);
      }
    }

    /** Consume an option and go on to the next one. */
    method TakeOption(width: seq<string> -> nat) returns (eof: bool)
      requires AtOption() && (AnySkipped() ==> nonoptEnd == optInd)
      modifies this`optInd, this`nonoptStart, this`nonoptEnd, this`marks, argv
      ensures if eof then AtEnd() else AtOption() && (AnySkipped() ==> nonoptEnd == optInd)
      ensures old(|marks|) < |marks| <= |original|
      ensures AllMarks(original, old(marks), old(AnySkipped()), width)
           == if eof then marks else AllMarks(original, marks, AnySkipped(), width)
    {
      var k := Clip(width(argv[optInd..]), argc - optInd);
      ConsumedMarks(original, marks, AnySkipped(), k, width);
      Consume(k);
      eof := NextOption(width);
    }
  }
}
