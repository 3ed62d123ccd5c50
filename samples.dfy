/**
 * Decoding of interleaved little-endian PCM. Every renderer reads the data as
 * a sequence of 4-byte `Sample` frames {L, R int16} and keeps only L.
 */
module Samples {
  import opened Numeric

  newtype byte = x: int | 0 <= x < 256

  /** The two little-endian bytes of a signed 16-bit value (two's complement). */
  function EncodeInt16LE(v: int): (b: (byte, byte))
    requires -0x8000 <= v < 0x8000
    ensures b.1 >= 0x80 <==> v < 0
  {
    var u := if v < 0 then v + 0x1_0000 else v;
    ((u % 256) as byte, (u / 256) as byte)
  }

  /** The signed 16-bit value of little-endian bytes lo, hi. */
  function Int16LE(lo: byte, hi: byte): (v: int)
    ensures -0x8000 <= v < 0x8000
    ensures EncodeInt16LE(v) == (lo, hi)
  {
    var u := lo as int + 256 * hi as int;
    if u >= 0x8000 then u - 0x1_0000 else u
  }

  lemma {:induction false} Int16RoundTrip(v: int)
    requires -0x8000 <= v < 0x8000
    ensures Int16LE(EncodeInt16LE(v).0, EncodeInt16LE(v).1) == v
  {
    var b := EncodeInt16LE(v);
    var u := if v < 0 then v + 0x1_0000 else v;
    assert b.0 as int + 256 * b.1 as int == u;
  }

  /**
   * The L field of the 4-byte Sample frame that starts at byte off: the
   * little-endian int16 in its bytes 0 and 1 (a read needs all 4 bytes).
   */
  function LeftAt(data: seq<byte>, off: nat): (v: int)
    requires off + 4 <= |data|
    ensures -0x8000 <= v < 0x8000
    ensures EncodeInt16LE(v) == (data[off], data[off + 1])
  {
    Int16LE(data[off], data[off + 1])
  }

  /**
   * The value of Go's `sample.L` after the (i+1)-th `binary.Read` of a Sample
   * from a bytes.Buffer over `window`. The first |window|/4 reads succeed; a
   * later read finds fewer than 4 bytes and fails, leaving `sample` as it was:
   * the last frame that was read whole, or `prev` when none was.
   */
  function ReadLeft(window: seq<byte>, i: nat, prev: int): (v: int)
    ensures -0x8000 <= prev < 0x8000 ==> -0x8000 <= v < 0x8000
    ensures i < |window| / 4 ==> v == LeftAt(window, 4 * i)
    ensures |window| < 4 ==> v == prev
    ensures 4 <= |window| && |window| / 4 <= i ==> v == LeftAt(window, 4 * (|window| / 4 - 1))
  {
    if i < |window| / 4 then LeftAt(window, 4 * i)
    else if |window| >= 4 then LeftAt(window, 4 * (|window| / 4 - 1))
    else prev
  }

  /** When the window holds `count` whole frames, each of the first `count` reads sees a fresh frame. */
  lemma FullReads(window: seq<byte>, count: nat, prev: int)
    requires 4 * count <= |window|
    ensures forall i :: 0 <= i < count ==> ReadLeft(window, i, prev) == LeftAt(window, 4 * i)
  {
  }

  /**
   * fft_data after `count` reads of a Sample from a buffer over `window`, each
   * storing complex(float64(sample.L)/scale, 0).
   */
  function DecodeLefts(window: seq<byte>, count: nat, prev: int, scale: real): (inp: seq<Complex>)
    requires scale > 0.0
    ensures |inp| == count
    ensures forall k :: 0 <= k < count ==> inp[k] == Complex(ReadLeft(window, k, prev) as real / scale, 0.0)
  {
    seq(count, k requires 0 <= k < count => Complex(ReadLeft(window, k, prev) as real / scale, 0.0))
  }

  /** Dividing a 16-bit value by 2^16 lands in [-1/2, 1/2). */
  lemma HalfUnitRange(window: seq<byte>, count: nat, prev: int, k: nat)
    requires -0x8000 <= prev < 0x8000 && k < count
    ensures -0.5 <= DecodeLefts(window, count, prev, 65536.0)[k].re < 0.5
  {
    var v := ReadLeft(window, k, prev);
    assert -32768.0 <= v as real < 32768.0;
  }
}
