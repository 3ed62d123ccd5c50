/** Numeric helpers shared by the Go renderers and the Python prototypes. */
module Numeric {

  /** 2^32: uint32 values are the integers below it. */
  const UINT32: nat := 0x1_0000_0000

  datatype Option<T> = None | Some(value: T)

  /** One entry of an FFT buffer (fftw's complex128). */
  datatype Complex = Complex(re: real, im: real)

  /** The real parts of a run of FFT entries. */
  function RealParts(s: seq<Complex>): (r: seq<real>)
    ensures |r| == |s|
    ensures forall k :: 0 <= k < |s| ==> r[k] == s[k].re
  {
    seq(|s|, k requires 0 <= k < |s| => s[k].re)
  }

  /** 2 raised to the k. */
  function Pow2(k: nat): (r: nat)
    ensures r >= 1
    ensures k >= 1 ==> r % 2 == 0
  {
    if k == 0 then 1 else 2 * Pow2(k - 1)
  }

  lemma Pow2Sixteen()
    ensures Pow2(15) == 0x8000 && Pow2(16) == 0x1_0000
  {
    assert Pow2(8) == 256 by {
      assert Pow2(4) == 16;
    }
  }

  /**
   * Conversion of a float to an integer by truncation towards zero: Python's
   * int(x) and Go's integer conversion of a float.
   */
  function Trunc(x: real): (n: int)
    ensures 0.0 <= x ==> 0 <= n && n as real <= x < n as real + 1.0
    ensures x < 0.0 ==> n <= 0 && n as real - 1.0 < x <= n as real
  {
    if x >= 0.0 then x.Floor else -((-x).Floor)
  }

  function Min(a: real, b: real): (m: real)
    ensures m <= a && m <= b && (m == a || m == b)
  {
    if a <= b then a else b
  }
}
