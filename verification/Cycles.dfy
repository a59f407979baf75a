/** The arithmetic of rotating a block of p + q places by following gcd(p, q) cycles. */
module Cycles {

  function Gcd(x: nat, y: nat): nat
    decreases y
  {
    if y == 0 then x else Gcd(y, x % y)
  }

  lemma Distribute(a: int, b: int, c: int)
    ensures (a + b) * c == a * c + b * c && (a - b) * c == a * c - b * c
  {
  }

  lemma Associate(a: int, b: int, c: int)
    ensures (a * b) * c == a * (b * c)
  {
  }

  /** Gcd divides both and is a combination of both. */
  lemma {:induction false} GcdFacts(x: nat, y: nat) returns (a: nat, b: nat, u: int, v: int)
    requires x + y > 0
    ensures Gcd(x, y) > 0 && x == a * Gcd(x, y) && y == b * Gcd(x, y) && u * x + v * y == Gcd(x, y)
    decreases y
  {
    if y == 0 {
      a, b, u, v := 1, 0, 1, 0;
    } else {
      var a', b', u', v' := GcdFacts(y, x % y);
      GcdStep(x, y, Gcd(x, y), a', b', u', v');
      a, b, u, v := (x / y) * a' + b', a', v', u' - v' * (x / y);
    }
  }

  lemma GcdStep(x: nat, y: nat, g: nat, a: nat, b: nat, u: int, v: int)
    requires y > 0 && y == a * g && x % y == b * g && u * y + v * (x % y) == g
    ensures x == ((x / y) * a + b) * g && v * x + (u - v * (x / y)) * y == g
  {
    var d, r := x / y, x % y;
    assert x == d * y + r;
    Associate(d, a, g);
    Distribute(d * a, b, g);
    Associate(v, d, y);
    Distribute(u, v * d, y);
    Distribute(d * y, r, v);
  }

  /** A block of p places followed by a block of q. */
  datatype Window = Window(p: nat, q: nat)
  {
    function Size(): nat { p + q }

    /** Where the element at place r goes when the blocks change places. */
    function Next(r: nat): nat
      requires r < Size()
    {
      if r >= p then r - p else r + q
    }

    /** Where the element for place r comes from. */
    function Source(r: nat): nat
      requires r < Size()
    {
      if r < q then r + p else r - q
    }

    function Pos(c: nat, j: nat): (r: nat)
      requires c < Size()
      ensures r < Size()
    {
      if j == 0 then c else Next(Pos(c, j - 1))
    }

    ghost function Laps(c: nat, j: nat): int
      requires c < Size()
    {
      if j == 0 then 0 else Laps(c, j - 1) + if Pos(c, j - 1) >= p then 1 else 0
    }

    /** The places from c come round after n moves, and not before. */
    ghost predicate Orbit(c: nat, n: nat) {
      && c < Size() && n > 0 && Pos(c, n) == c
      && forall j: nat, k: nat :: j < k < n ==> Pos(c, j) != Pos(c, k)
    }
  }

  /** A window in which g cycles of length a + b are followed; g == u * p + v * q. */
  datatype Ring = Ring(w: Window, g: nat, a: nat, b: nat, u: int, v: int)
  {
    ghost predicate Valid() {
      w.p > 0 && w.q > 0 && g > 0 && w.p == a * g && w.q == b * g && u * w.p + v * w.q == g
    }

    function Size(): nat { w.Size() }

    function Length(): nat { a + b }
  }

  lemma {:induction false} PosIs(R: Ring, c: nat, j: nat)
    requires c < R.Size()
    ensures R.w.Pos(c, j) == c + j * R.w.q - R.w.Laps(c, j) * R.Size()
  {
    if j > 0 {
      PosIs(R, c, j - 1);
      Distribute(j - 1, 1, R.w.q);
      Distribute(R.w.Laps(c, j - 1), 1, R.Size());
    }
  }

  lemma Positive(a: nat, g: nat)
    requires a * g > 0
    ensures a > 0
  {
  }

  lemma SizeIs(R: Ring)
    requires R.Valid()
    ensures R.Size() == R.Length() * R.g && R.Length() * R.w.q == R.b * R.Size() && R.a > 0 && R.b > 0
  {
    Distribute(R.a, R.b, R.g);
    Associate(R.Length(), R.b, R.g);
    Associate(R.b, R.Length(), R.g);
    Positive(R.a, R.g);
    Positive(R.b, R.g);
  }

  lemma Cancel(x: int, y: int, g: nat)
    requires g > 0 && x * g == y * g
    ensures x == y
  {
    Distribute(x, y, g);
    Grows(x - y, g);
  }

  lemma Grows(t: int, n: int)
    requires n >= 0
    ensures t >= 1 ==> t * n >= n
    ensures t <= -1 ==> t * n <= -n
  {
    Distribute(t, 1, n);
    if t >= 1 { assert (t - 1) * n >= 0; }
    if t <= -1 { assert (t + 1) * n <= 0; }
  }

  lemma NoMultipleBetween(m: int, t: int, n: int)
    requires m == t * n && -n < m < n
    ensures m == 0
  {
    Grows(t, n);
  }

  /** m times q, with q understood modulo p + q, turned into m times g. */
  lemma TimesG(R: Ring, m: int)
    requires R.Valid()
    ensures m * R.g == (m * R.u) * R.Size() + (m * (R.v - R.u)) * R.w.q
  {
    var n := R.Size();
    assert R.u * R.w.p == R.u * n - R.u * R.w.q by { Distribute(n, R.w.q, R.u); }
    assert R.g == R.u * n + (R.v - R.u) * R.w.q by { Distribute(R.v, R.u, R.w.q); }
    Associate(m, R.u, n);
    Associate(m, R.v - R.u, R.w.q);
    Distribute(R.u * n, (R.v - R.u) * R.w.q, m);
  }

  /** A cycle comes back to its start ... */
  lemma PosCloses(R: Ring, c: nat)
    requires R.Valid() && c < R.Size()
    ensures R.w.Pos(c, R.Length()) == c
  {
    SizeIs(R);
    PosIs(R, c, R.Length());
    var k := R.w.Laps(c, R.Length());
    Distribute(R.b, k, R.Size());
    NoMultipleBetween(R.w.Pos(c, R.Length()) - c, R.b - k, R.Size());
  }

  /** ... and not before it has visited Length() different places. */
  lemma PosDistinct(R: Ring, c: nat, j: nat, k: nat)
    requires R.Valid() && c < R.Size() && j < k < R.Length()
    ensures R.w.Pos(c, j) != R.w.Pos(c, k)
  {
    if R.w.Pos(c, j) == R.w.Pos(c, k) {
      PosIs(R, c, j);
      PosIs(R, c, k);
      SizeIs(R);
      var m, d, n, w := k - j, R.w.Laps(c, k) - R.w.Laps(c, j), R.Size(), R.v - R.u;
      Distribute(k, j, R.w.q);
      Distribute(R.w.Laps(c, k), R.w.Laps(c, j), n);
      assert m * R.w.q == d * n;
      TimesG(R, m);
      assert (m * w) * R.w.q == (w * d) * n by { Associate(w, m, R.w.q); Associate(w, d, n); }
      Distribute(m * R.u, w * d, n);
      var t := m * R.u + w * d;
      Associate(t, R.Length(), R.g);
      Cancel(m, t * R.Length(), R.g);
      NoMultipleBetween(m, t, R.Length());
    }
  }

  lemma SameRest(r: int, k: int, g: nat)
    requires g > 0
    ensures (r + k * g) % g == r % g
  {
    assert (r + k * g) == (r / g + k) * g + r % g by { Distribute(r / g, k, g); }
    RestIs(r / g + k, r % g, g);
  }

  lemma RestIs(k: int, r: nat, g: nat)
    requires r < g
    ensures (k * g + r) % g == r
  {
    var x := k * g + r;
    Distribute(x / g, k, g);
    NoMultipleBetween(r - x % g, x / g - k, g);
  }

  /** A cycle stays in the class of its start modulo g ... */
  lemma {:induction false} PosClass(R: Ring, c: nat, j: nat)
    requires R.Valid() && c < R.Size()
    ensures R.w.Pos(c, j) % R.g == c % R.g
  {
    if j > 0 {
      PosClass(R, c, j - 1);
      var back: int := 0 - R.a;
      Distribute(0, R.a, R.g);
      SameRest(R.w.Pos(c, j - 1), back, R.g);
      SameRest(R.w.Pos(c, j - 1), R.b, R.g);
    }
  }

  /** ... and visits all of it. */
  lemma PosCovers(R: Ring, c: nat, r: nat) returns (j: nat)
    requires R.Valid() && c < R.Size() && r < R.Size() && r % R.g == c % R.g
    ensures j < R.Length() && R.w.Pos(c, j) == r
  {
    SizeIs(R);
    var t := SameClass(r, c, R.g);
    TimesG(R, t);
    var w: int;
    j, w := Unwind(t * (R.v - R.u), R.Length(), R.w.q, R.b, R.Size());
    PosIs(R, c, j);
    SameMultiple(r, R.w.Pos(c, j), t * R.u, w * R.b, R.w.Laps(c, j), R.Size(), c + j * R.w.q);
  }

  lemma SameClass(r: nat, c: nat, g: nat) returns (t: int)
    requires g > 0 && r % g == c % g
    ensures r - c == t * g
  {
    t := r / g - c / g;
    Distribute(r / g, c / g, g);
  }

  lemma Unwind(m: int, len: nat, q: nat, b: nat, n: nat) returns (j: nat, w: int)
    requires len > 0 && len * q == b * n
    ensures j < len && m * q == j * q + (w * b) * n
  {
    j, w := m % len, m / len;
    Distribute(w * len, j, q);
    Associate(w, len, q);
    Associate(w, b, n);
  }

  lemma SameMultiple(r: nat, r': nat, x: int, y: int, z: int, n: nat, k: int)
    requires r < n && r' < n && r == k + x * n + y * n && r' == k - z * n
    ensures r == r'
  {
    Distribute(x, y, n);
    Distribute(x + y, z, n);
    NoMultipleBetween(r - r', x + y + z, n);
  }

  /** Every cycle is an orbit. */
  lemma CycleIsOrbit(R: Ring, c: nat)
    requires R.Valid() && c < R.Size()
    ensures R.w.Orbit(c, R.Length())
  {
    SizeIs(R);
    PosCloses(R, c);
    forall j: nat, k: nat | j < k < R.Length() ensures R.w.Pos(c, j) != R.w.Pos(c, k) { PosDistinct(R, c, j, k); }
  }

  lemma StartOfCycle(R: Ring, i: nat)
    requires R.Valid() && i < R.g
    ensures i < R.w.q && (R.w.p + i) % R.g == i
  {
    SizeIs(R);
    RestIs(R.a, i, R.g);
    Grows(R.b, R.g);
  }

  lemma QuotientIs(k: nat, g: nat)
    requires g > 0
    ensures k * g / g == k
  {
    RestIs(k, 0, g);
    Cancel(k * g / g, k, g);
  }

  /** The ring of a window: what Gcd says of it. */
  lemma RingOf(w: Window) returns (R: Ring)
    requires w.p > 0 && w.q > 0
    ensures R.Valid() && R.w == w && R.g == Gcd(w.p, w.q) && R.Length() == w.Size() / R.g
  {
    var a, b, u, v := GcdFacts(w.p, w.q);
    R := Ring(w, Gcd(w.p, w.q), a, b, u, v);
    SizeIs(R);
    QuotientIs(R.Length(), R.g);
  }
}
