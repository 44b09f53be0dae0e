/**
 * The probe sequence of the hash table: step `i` moves on by `i * i`, modulo the capacity.
 */
module Probing {

  /** 1 + 4 + 9 + ... + n * n */
  function Squares(n: nat): nat {
    if n == 0 then 0 else Squares(n - 1) + n * n
  }

  function Pow2(k: nat): (r: nat)
    ensures r > 0
  {
    if k == 0 then 1 else 2 * Pow2(k - 1)
  }

  /** The slot looked at after `n` steps from a hash value. */
  function Probe(h: nat, n: nat, capacity: nat): (ix: nat)
    requires capacity > 0
    ensures ix < capacity
  {
    (h + Squares(n)) % capacity
  }

  /** One step of the loop, which reduces modulo the capacity each time. */
  lemma ProbeStep(h: nat, n: nat, capacity: nat)
    requires capacity > 0
    ensures Probe(h, n + 1, capacity) == (Probe(h, n, capacity) + (n + 1) * (n + 1)) % capacity
  {
    ModAdd(h + Squares(n), (n + 1) * (n + 1), capacity);
  }

  lemma ModAdd(a: nat, b: nat, c: nat)
    requires c > 0
    ensures (a + b) % c == (a % c + b) % c
  {
    var q, r := a / c, a % c;
    assert a + b == r + b + c * q;
    ModShift(r + b, q, c);
  }

  lemma {:induction false} ModShift(x: nat, q: nat, c: nat)
    requires c > 0
    ensures (x + c * q) % c == x % c
  {
    if q > 0 {
      ModShift(x, q - 1, c);
      assert x + c * q == (x + c * (q - 1)) + c;
      ModOne(x + c * (q - 1), c);
    }
  }

  lemma ModOne(x: nat, c: nat)
    requires c > 0
    ensures (x + c) % c == x % c
  {
    var q, r := x / c, x % c;
    assert x + c == c * (q + 1) + r;
    Unique(x + c, c, q + 1, r);
  }

  /** Quotient and remainder are unique. */
  lemma Unique(x: nat, c: nat, q: nat, r: nat)
    requires c > 0 && x == c * q + r && r < c
    ensures x % c == r
  {
    SmallMultiple(r - x % c, c, x / c - q);
  }

  lemma SmallMultiple(x: int, c: int, d: int)
    requires x == c * d && -c < x < c
    ensures x == 0
  {
    assert d >= 1 ==> c * d >= c;
    assert d <= -1 ==> c * d <= -c;
  }

  // ---------------------------------------------------------------- even steps visit every slot

  function Half(m: int, j: int): int {
    4 * (m * m + m * j + j * j) + 3 * (m + j)
  }

  /** Two even steps are an odd multiple of the distance apart, up to a factor 3. */
  lemma EvenGap(m: nat, j: nat)
    ensures 3 * (Squares(2 * m) - Squares(2 * j)) == (m - j) * (2 * Half(m, j) + 1)
  {
    EvenSquares(m);
    EvenSquares(j);
    Cubes(m, j);
  }

  lemma {:induction false} EvenSquares(m: nat)
    ensures 3 * Squares(2 * m) == 8 * (m * m * m) + 6 * (m * m) + m
  {
    if m > 0 {
      var n := m - 1;
      EvenSquares(n);
      assert Squares(2 * m) == Squares(2 * n) + (2 * m - 1) * (2 * m - 1) + (2 * m) * (2 * m);
      Cube(m);
    }
  }

  lemma Cube(m: int)
    ensures (m - 1) * (m - 1) == m * m - 2 * m + 1
    ensures (m - 1) * (m - 1) * (m - 1) == m * m * m - 3 * (m * m) + 3 * m - 1
    ensures (2 * m - 1) * (2 * m - 1) + (2 * m) * (2 * m) == 8 * (m * m) - 4 * m + 1
  {}

  lemma Cubes(m: int, j: int)
    ensures (8 * (m * m * m) + 6 * (m * m) + m) - (8 * (j * j * j) + 6 * (j * j) + j)
         == (m - j) * (2 * (4 * (m * m + m * j + j * j) + 3 * (m + j)) + 1)
  {
    var q := m * m + m * j + j * j;
    assert (m - j) * q == m * m * m - j * j * j;
    assert (m - j) * (m + j) == m * m - j * j;
    assert (m - j) * (8 * q + 6 * (m + j) + 1) == 8 * ((m - j) * q) + 6 * ((m - j) * (m + j)) + (m - j);
  }

  /** An odd factor does not help to reach a multiple of a power of two. */
  lemma {:induction false} OddFactor(k: nat, a: int, b: int, q: int)
    requires a * (2 * b + 1) == Pow2(k) * q
    ensures exists c: int :: a == Pow2(k) * c
  {
    if k == 0 {
      assert a == Pow2(0) * a;
    } else {
      assert a * (2 * b + 1) == 2 * (a * b) + a;
      assert Pow2(k) * q == 2 * (Pow2(k - 1) * q);
      var a' := Pow2(k - 1) * q - a * b;
      assert a == 2 * a';
      assert 2 * (a' * (2 * b + 1)) == a * (2 * b + 1);
      OddFactor(k - 1, a', b, q);
      var c: int :| a' == Pow2(k - 1) * c;
      assert a == Pow2(k) * c;
    }
  }

  lemma SameModGap(a: nat, b: nat, c: nat)
    requires c > 0 && a % c == b % c
    ensures a - b == c * (a / c - b / c)
  {}

  /** Even steps that meet are a multiple of the capacity apart. */
  lemma MeetingGap(k: nat, h: nat, m: nat, j: nat) returns (d: int)
    requires Probe(h, 2 * m, Pow2(k)) == Probe(h, 2 * j, Pow2(k))
    ensures m - j == Pow2(k) * d
  {
    hide Half, Squares, Pow2;
    var c: int, x: int, y: int := Pow2(k), Squares(2 * m), Squares(2 * j);
    SameModGap(h + x, h + y, c);
    var q := (h + x) / c - (h + y) / c;
    EvenGap(m, j);
    Triple(x - y, c, q);
    var gap: int := m - j;
    OddFactor(k, gap, Half(m, j), 3 * q);
    d :| gap == c * d;
  }

  lemma Triple(z: int, c: int, q: int)
    requires z == c * q
    ensures 3 * z == c * (3 * q)
  {}

  /** The first 2^k even steps look at pairwise different slots. */
  lemma EvenProbesDiffer(k: nat, h: nat, m: nat, j: nat)
    requires m < Pow2(k) && j < Pow2(k) && Probe(h, 2 * m, Pow2(k)) == Probe(h, 2 * j, Pow2(k))
    ensures m == j
  {
    var d := MeetingGap(k, h, m, j);
    SmallMultiple(m - j, Pow2(k), d);
  }

  /** The slots of the first `n` even steps. */
  ghost function Visited(h: nat, n: nat, capacity: nat): set<nat>
    requires capacity > 0
  {
    set m | 0 <= m < n :: Probe(h, 2 * m, capacity)
  }

  lemma VisitedNew(k: nat, h: nat, n: nat)
    requires n < Pow2(k)
    ensures Probe(h, 2 * n, Pow2(k)) !in Visited(h, n, Pow2(k))
    ensures Visited(h, n + 1, Pow2(k)) == Visited(h, n, Pow2(k)) + {Probe(h, 2 * n, Pow2(k))}
  {
    hide Probe;
    forall m: nat | m < n ensures Probe(h, 2 * m, Pow2(k)) != Probe(h, 2 * n, Pow2(k)) {
      if Probe(h, 2 * m, Pow2(k)) == Probe(h, 2 * n, Pow2(k)) { EvenProbesDiffer(k, h, m, n); }
    }
  }

  lemma {:induction false} VisitedSize(k: nat, h: nat, n: nat)
    requires n <= Pow2(k)
    ensures |Visited(h, n, Pow2(k))| == n
  {
    if n == 0 {
      assert Visited(h, 0, Pow2(k)) == {};
    } else {
      VisitedSize(k, h, n - 1);
      VisitedNew(k, h, n - 1);
    }
  }

  function Below(n: nat): set<nat> {
    if n == 0 then {} else Below(n - 1) + {n - 1}
  }

  lemma {:induction false} BelowSize(n: nat)
    ensures |Below(n)| == n && forall x: nat :: x in Below(n) <==> x < n
  {
    if n > 0 { BelowSize(n - 1); }
  }

  lemma SubsetFull(a: set<nat>, b: set<nat>)
    requires a <= b && |a| == |b|
    ensures a == b
  {
    if x :| x in b && x !in a {
      var c := b - {x};
      assert a <= c && |c| == |b| - 1;
      SubsetSize(a, c);
    }
  }

  lemma {:induction false} SubsetSize(a: set<nat>, b: set<nat>)
    requires a <= b
    ensures |a| <= |b|
    decreases |a|
  {
    if x :| x in a { SubsetSize(a - {x}, b - {x}); }
  }

  /** The even steps below 2 * 2^k look at every slot exactly once: they permute the table. */
  lemma EvenProbesPermute(k: nat, h: nat, ix: nat) returns (m: nat)
    requires ix < Pow2(k)
    ensures m < Pow2(k) && Probe(h, 2 * m, Pow2(k)) == ix
    ensures forall j: nat :: j < Pow2(k) && Probe(h, 2 * j, Pow2(k)) == ix ==> j == m
  {
    VisitedSize(k, h, Pow2(k));
    BelowSize(Pow2(k));
    SubsetFull(Visited(h, Pow2(k), Pow2(k)), Below(Pow2(k)));
    assert ix in Visited(h, Pow2(k), Pow2(k));
    m :| m < Pow2(k) && ix == Probe(h, 2 * m, Pow2(k));
    forall j: nat | j < Pow2(k) && Probe(h, 2 * j, Pow2(k)) == ix ensures j == m { EvenProbesDiffer(k, h, j, m); }
  }
}
