/**
 * The centred bar chart shared by the two live renderers (rgl2.go, rgl3.go):
 * the index remap that puts the zero-frequency bin in the middle, the height
 * clamp and the rectangle each bar is drawn as in the [-1, 1] viewport.
 */
module Bars {
  import opened Numeric

  /** A gl.Rectf call after gl.Translatef: corners (x1, y1) and (x2, y2). */
  datatype Rect = Rect(x1: real, y1: real, x2: real, y2: real)

  /** The bin drawn as bar i: (i + n/2) % n. */
  function Remap(i: nat, n: nat): (j: nat)
    requires n > 0
    ensures j < n
  {
    (i + n / 2) % n
  }

  /** The bar that draws bin j: the inverse of Remap. */
  function Unmap(j: nat, n: nat): (i: nat)
    requires n > 0
    ensures i < n
  {
    (j + n - n / 2) % n
  }

  lemma ModOfShifted(a: nat, n: nat)
    requires 0 < n && a < 2 * n
    ensures a % n == if a < n then a else a - n
  {
    if a >= n {
      var q, r := a / n, a % n;
      assert a == q * n + r && 0 <= r < n;
      assert q == 1;
    }
  }

  /**
   * The remap is a permutation of [0, n): Unmap undoes it in both orders, so
   * over i in [0, n) every bin is drawn exactly once.
   */
  lemma RemapIsPermutation(n: nat, i: nat, j: nat)
    requires 0 < n && i < n && j < n
    ensures Unmap(Remap(i, n), n) == i
    ensures Remap(Unmap(j, n), n) == j
  {
    ModOfShifted(i + n / 2, n);
    ModOfShifted(Remap(i, n) + n - n / 2, n);
    ModOfShifted(j + n - n / 2, n);
    ModOfShifted(Unmap(j, n) + n / 2, n);
  }

  /** Distinct bars draw distinct bins. */
  lemma RemapInjective(n: nat, i: nat, k: nat)
    requires 0 < n && i < n && k < n && i != k
    ensures Remap(i, n) != Remap(k, n)
  {
    RemapIsPermutation(n, i, 0);
    RemapIsPermutation(n, k, 0);
  }

  /** `if y > 2 { y = 2 }`: bars are capped at the full viewport height; there is no lower clamp. */
  function ClampHeight(y: real): (h: real)
    ensures h <= 2.0 && h <= y
    ensures y <= 2.0 ==> h == y
  {
    if y > 2.0 then 2.0 else y
  }

  /**
   * Bar i of n: translated to i/(n/2) - 1, then gl.Rectf(-1/n, -1 + h, 1/n, -1),
   * a rectangle from the bottom edge up to height h.
   */
  function BarAt(i: nat, n: nat, h: real): (r: Rect)
    requires n >= 2
    ensures r.y2 == -1.0 && r.y1 - r.y2 == h
    ensures r.x2 - r.x1 == 2.0 / n as real
  {
    var cx := i as real / (n / 2) as real - 1.0;
    var w := 1.0 / n as real;
    Rect(cx - w, -1.0 + h, cx + w, -1.0)
  }

  /** The edges of bar i: 2i/n - 1 -+ 1/n, with the bottom at -1 and the top at most 1. */
  lemma BarEdges(i: nat, n: nat, y: real)
    requires n >= 2 && n % 2 == 0
    ensures var r := BarAt(i, n, ClampHeight(y));
      && r.x1 == (2 * i - 1) as real / n as real - 1.0
      && r.x2 == (2 * i + 1) as real / n as real - 1.0
      && r.y2 == -1.0 && r.y1 <= 1.0
  {
    var m := n / 2;
    assert n == 2 * m;
    var cx := i as real / m as real - 1.0;
    assert i as real / m as real == (2 * i) as real / n as real;
  }

  /** Consecutive bars share an edge. */
  lemma BarsTouch(i: nat, n: nat, y: real, z: real)
    requires n >= 2 && n % 2 == 0
    ensures BarAt(i, n, ClampHeight(y)).x2 == BarAt(i + 1, n, ClampHeight(z)).x1
  {
    BarEdges(i, n, y);
    BarEdges(i + 1, n, z);
  }

  /** An earlier bar ends where or before a later one begins, so bars never overlap. */
  lemma BarsDisjoint(i: nat, k: nat, n: nat, y: real, z: real)
    requires n >= 2 && n % 2 == 0 && i < k
    ensures BarAt(i, n, ClampHeight(y)).x2 <= BarAt(k, n, ClampHeight(z)).x1
  {
    BarEdges(i, n, y);
    BarEdges(k, n, z);
    var gap := (2 * k - 1 - (2 * i + 1)) as real;
    assert gap >= 0.0 && gap / n as real >= 0.0;
    assert (2 * k - 1) as real / n as real == (2 * i + 1) as real / n as real + gap / n as real;
  }

  /**
   * The rectangles one tick draws: bar i shows bin Remap(i) with the clamped
   * height that `height` gives its real part.
   */
  function BarChart(spectrum: seq<Complex>, n: nat, height: real -> real): (bars: seq<Rect>)
    requires n >= 2 && |spectrum| == n
    ensures |bars| == n
    ensures forall i :: 0 <= i < n ==> bars[i] == BarAt(i, n, ClampHeight(height(spectrum[Remap(i, n)].re)))
  {
    seq(n, i requires 0 <= i < n => BarAt(i, n, ClampHeight(height(spectrum[Remap(i, n)].re))))
  }
}
