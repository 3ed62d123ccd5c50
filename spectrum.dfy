/**
 * The Python prototype spectrum/spectrum.py: a matplotlib animation that, for
 * every video frame, reads the wave file up to the frame's time in whole
 * multiples of nFFT sample frames, transforms both channels and stitches the
 * two half-spectra into one line of nFFT - 1 points.
 */
module Spectrum {
  import opened Numeric
  import opened Samples

  const FPS: real := 25.0
  const NFFT: nat := 512
  const RATE: nat := 44100
  const SAMPLE_SIZE: nat := 2
  const CHANNELS: nat := 2
  /** MAX_y = 2.0**(SAMPLE_SIZE * 8 - 1). */
  const MAX_Y: real := 32768.0

  /** int((i + 1) * RATE / FPS): the stream position, in sample frames, frame i catches up to. */
  function FrameTarget(i: nat): (t: nat)
    ensures t == 1764 * (i + 1)
  {
    var x := ((i + 1) * RATE) as real / FPS;
    assert x == (1764 * (i + 1)) as real;
    Trunc(x)
  }

  /**
   * N = (target - wf.tell()) / nFFT, then N *= nFFT: the frames to read, in
   * Python 2 floor division. It is a multiple of nFFT, and when the cursor is
   * not past the target the read stops less than nFFT frames short of it.
   */
  function ReadCount(i: nat, tell: nat): (n: int)
    ensures n % NFFT == 0
    ensures tell <= FrameTarget(i) ==> 0 <= n && FrameTarget(i) - NFFT < tell + n <= FrameTarget(i)
    ensures tell > FrameTarget(i) ==> n < 0
  {
    (FrameTarget(i) - tell) / NFFT * NFFT
  }

  /**
   * wf.readframes(n) from cursor tell of a file of `total` frames: a
   * negative count reads the rest of the file, any other count is cut
   * short at the end.
   */
  function FramesRead(n: int, tell: nat, total: nat): (got: nat)
    requires tell <= total
    ensures tell + got <= total
    ensures n < 0 ==> tell + got == total
    ensures 0 <= n ==> got == if n <= total - tell then n else total - tell
  {
    if n < 0 || n > total - tell then total - tell else n
  }

  /** wf.tell() after animate(i): unchanged when the read count is zero. */
  function Step(i: nat, tell: nat, total: nat): (next: nat)
    requires tell <= total
    ensures tell <= total ==> next <= total
  {
    var n := ReadCount(i, tell);
    if n == 0 then tell else tell + FramesRead(n, tell, total)
  }

  /** The cursor after animate(0), ..., animate(k - 1), starting at the beginning of the file. */
  function CursorAfter(k: nat, total: nat): (c: nat)
    ensures c <= total
  {
    if k == 0 then 0 else Step(k - 1, CursorAfter(k - 1, total), total)
  }

  /**
   * The cursor never runs ahead of frame time; while the file lasts it lags
   * the frame's target by less than nFFT frames.
   */
  lemma {:induction false} CursorTracksFrames(k: nat, total: nat)
    requires k >= 1
    ensures CursorAfter(k, total) <= FrameTarget(k - 1)
    ensures FrameTarget(k - 1) <= total ==> FrameTarget(k - 1) - NFFT < CursorAfter(k, total)
  {
    var prev := CursorAfter(k - 1, total);
    if k >= 2 {
      CursorTracksFrames(k - 1, total);
      assert prev <= FrameTarget(k - 2) <= FrameTarget(k - 1);
    }
    var n := ReadCount(k - 1, prev);
    assert 0 <= n;
  }

  /** struct.unpack("%dh" % (len(data) / 2), data) / MAX_y on a little-endian host. */
  function Unpack(bytes: seq<byte>): (y: seq<real>)
    ensures |y| == |bytes| / 2
    ensures forall k {:trigger y[k]} :: 0 <= k < |bytes| / 2 ==> y[k] == Int16LE(bytes[2 * k], bytes[2 * k + 1]) as real / MAX_Y
  {
    seq(|bytes| / 2, k requires 0 <= k < |bytes| / 2 => Int16LE(bytes[2 * k], bytes[2 * k + 1]) as real / MAX_Y)
  }

  /** Every unpacked value lies in [-1, 1). */
  lemma UnpackInUnit(bytes: seq<byte>, k: nat)
    requires k < |bytes| / 2
    ensures -1.0 <= Unpack(bytes)[k] < 1.0
  {
    var v := Int16LE(bytes[2 * k], bytes[2 * k + 1]);
    assert -32768.0 <= v as real < 32768.0;
  }

  /** y[::2]: the entries at even positions. */
  function Evens<T>(y: seq<T>): (e: seq<T>)
    ensures |e| == (|y| + 1) / 2
    ensures forall k {:trigger e[k]} :: 0 <= k < |e| ==> e[k] == y[2 * k]
  {
    if |y| == 0 then []
    else if |y| == 1 then [y[0]]
    else [y[0]] + Evens(y[2..])
  }

  /** y[1::2]: the entries at odd positions. */
  function Odds<T>(y: seq<T>): (o: seq<T>)
    ensures |o| == |y| / 2
    ensures forall k {:trigger o[k]} :: 0 <= k < |o| ==> o[k] == y[2 * k + 1]
  {
    if |y| < 2 then [] else [y[1]] + Odds(y[2..])
  }

  /** LRLR...: pairs up a left and a right sequence again. */
  function Interleave<T>(l: seq<T>, r: seq<T>): (y: seq<T>)
    requires |l| == |r|
    ensures |y| == 2 * |l|
  {
    if |l| == 0 then [] else [l[0], r[0]] + Interleave(l[1..], r[1..])
  }

  /** Deinterleaving loses nothing: the two halves of an even-length sequence interleave back to it. */
  lemma {:induction false} DeinterleaveRoundTrip<T>(y: seq<T>)
    requires |y| % 2 == 0
    ensures |Evens(y)| == |Odds(y)| == |y| / 2
    ensures Interleave(Evens(y), Odds(y)) == y
  {
    if |y| > 0 {
      DeinterleaveRoundTrip(y[2..]);
      assert Evens(y)[1..] == Evens(y[2..]);
      assert Odds(y)[1..] == Odds(y[2..]);
      assert y == [y[0], y[1]] + y[2..];
    }
  }

  /**
   * The unpacked read splits into the L and R samples of its sample frames:
   * y_L and y_R have one entry per frame, and entry k holds frame k's L and R.
   */
  lemma Channels(bytes: seq<byte>, k: nat)
    requires |bytes| % 4 == 0 && k < |bytes| / 4
    ensures |Evens(Unpack(bytes))| == |Odds(Unpack(bytes))| == |bytes| / 4
    ensures Evens(Unpack(bytes))[k] == LeftAt(bytes, 4 * k) as real / MAX_Y
    ensures Odds(Unpack(bytes))[k] == Int16LE(bytes[4 * k + 2], bytes[4 * k + 3]) as real / MAX_Y
  {
    var y := Unpack(bytes);
    var m := |bytes| / 4;
    assert |y| == 2 * m by {
      assert |bytes| == 4 * m;
    }
    var e, o := 2 * k, 2 * k + 1;
    assert 2 * e == 4 * k && 2 * o == 4 * k + 2;
    assert Evens(y)[k] == y[e];
    assert Odds(y)[k] == y[o];
    assert y[e] == Int16LE(bytes[2 * e], bytes[2 * e + 1]) as real / MAX_Y;
    assert y[o] == Int16LE(bytes[2 * o], bytes[2 * o + 1]) as real / MAX_Y;
  }

  /**
   * np.hstack((Y_L[-nFFT/2:-1], Y_R[:nFFT/2])): the upper half of the left
   * spectrum without its last bin, then the lower half of the right one.
   */
  function Stitch<T>(yl: seq<T>, yr: seq<T>): (y: seq<T>)
    requires |yl| == NFFT && |yr| == NFFT
    ensures |y| == NFFT - 1
  {
    yl[NFFT / 2 .. NFFT - 1] + yr[.. NFFT / 2]
  }

  /**
   * The stitched line holds left bins nFFT/2 .. nFFT-2 and then right bins
   * 0 .. nFFT/2-1, so the right channel's DC bin sits at nFFT/2 - 1.
   */
  lemma StitchLayout<T>(yl: seq<T>, yr: seq<T>)
    requires |yl| == NFFT && |yr| == NFFT
    ensures forall j :: 0 <= j < NFFT / 2 - 1 ==> Stitch(yl, yr)[j] == yl[NFFT / 2 + j]
    ensures forall k :: 0 <= k < NFFT / 2 ==> Stitch(yl, yr)[NFFT / 2 - 1 + k] == yr[k]
    ensures Stitch(yl, yr)[NFFT / 2 - 1] == yr[0]
  {
  }

  /** np.zeros(nFFT - 1): the clear frame init draws. */
  function Zeros(n: nat): (z: seq<real>)
    ensures |z| == n && forall k :: 0 <= k < n ==> z[k] == 0.0
  {
    seq(n, _ => 0.0)
  }

  /** x_f = 1.0 * np.arange(-nFFT/2 + 1, nFFT/2) / nFFT * RATE, point by point. */
  function AxisAt(j: int): (x: real)
    ensures x < 0.0 <==> j < NFFT / 2 - 1
    ensures x == 0.0 <==> j == NFFT / 2 - 1
  {
    (j - (NFFT / 2 - 1)) as real / NFFT as real * RATE as real
  }

  function Axis(): (xf: seq<real>)
    ensures |xf| == NFFT - 1
    ensures forall j :: 0 <= j < NFFT - 1 ==> xf[j] == AxisAt(j)
  {
    seq(NFFT - 1, j requires 0 <= j < NFFT - 1 => AxisAt(j))
  }

  /**
   * The axis, the clear frame and every stitched line have the same length;
   * the axis rises strictly, is symmetric about 0 and is 0 at the DC position.
   */
  lemma AxisShape<T>(yl: seq<T>, yr: seq<T>)
    requires |yl| == NFFT && |yr| == NFFT
    ensures |Axis()| == |Zeros(NFFT - 1)| == |Stitch(yl, yr)|
    ensures forall j, k :: 0 <= j < k < NFFT - 1 ==> Axis()[j] < Axis()[k]
    ensures forall j :: 0 <= j < NFFT - 1 ==> Axis()[j] == -Axis()[NFFT - 2 - j]
    ensures Axis()[NFFT / 2 - 1] == 0.0
  {
  }

  /** The frequency of bin m of an nFFT-point transform, negative for the upper half. */
  function BinFrequency(m: int): real
  {
    (if m < NFFT / 2 then m else m - NFFT) as real / NFFT as real * RATE as real
  }

  /**
   * The right half of the line is drawn at its bins' own frequencies; every
   * left bin is drawn one bin width (RATE/nFFT Hz) above its frequency.
   */
  lemma StitchAgainstAxis()
    ensures forall k :: 0 <= k < NFFT / 2 ==> AxisAt(NFFT / 2 - 1 + k) == BinFrequency(k)
    ensures forall j :: 0 <= j < NFFT / 2 - 1 ==>
      AxisAt(j) == BinFrequency(NFFT / 2 + j) + RATE as real / NFFT as real
  {
  }

  /** int(frames / RATE * FPS): Python 2 divides the integers first, so only whole seconds count. */
  function AnimationFrames(frames: nat): (count: nat)
    ensures count == frames / RATE * 25
  {
    var seconds := frames / RATE;
    assert (seconds as real) * FPS == (seconds * 25) as real;
    Trunc(seconds as real * FPS)
  }

  /** The header fields main checks. */
  datatype Header = Header(channels: nat, sampleWidth: nat, frameRate: nat, frames: nat)

  datatype Opened = Rejected | Accepted(frameCount: nat)

  /** The three asserts on the opened file, then the animation's frame count. */
  function OpenWave(h: Header): (o: Opened)
    ensures o.Accepted? ==> o.frameCount % 25 == 0 && o.frameCount * RATE <= h.frames * 25
  {
    if h.channels != CHANNELS then Rejected
    else if h.sampleWidth != SAMPLE_SIZE then Rejected
    else if h.frameRate != RATE then Rejected
    else Accepted(AnimationFrames(h.frames))
  }

  /** Only 16-bit stereo at 44100 Hz is accepted, and then a whole second gives 25 frames. */
  lemma OpenWaveAccepts(h: Header)
    ensures OpenWave(h).Accepted? <==> h.channels == 2 && h.sampleWidth == 2 && h.frameRate == 44100
    ensures OpenWave(h).Accepted? ==> OpenWave(h).frameCount == h.frames / 44100 * 25
  {
  }

  /** The magnitude of an nFFT-point transform: abs(np.fft.fft(x, nFFT)). */
  type Magnitude = seq<real> -> seq<real>

  ghost predicate Transforms(spectrum: Magnitude) {
    forall x :: |spectrum(x)| == NFFT
  }

  /** The state the animation callbacks share: the wave file's cursor and the plotted line. */
  class Animation {
    /** The file's data chunk, 4 bytes per sample frame. */
    const data: seq<byte>
    /** wf.tell(), in sample frames. */
    var tell: nat
    /** The line's y data. */
    var ydata: seq<real>

    function Total(): nat
    {
      |data| / 4
    }

    ghost predicate Valid()
      reads this
    {
      |data| % 4 == 0 && tell <= Total()
    }

    /** wave.open and ax.plot(x_f, np.zeros(nFFT - 1)). */
    constructor (data: seq<byte>)
      requires |data| % 4 == 0
      ensures Valid() && this.data == data && tell == 0 && ydata == Zeros(NFFT - 1)
    {
      this.data := data;
      tell := 0;
      ydata := Zeros(NFFT - 1);
    }

    /** init: the clear frame. */
    method Init()
      modifies this`ydata
      ensures ydata == Zeros(NFFT - 1)
    {
      ydata := Zeros(NFFT - 1);
    }

    /**
     * animate(i): read up to the frame's target in whole nFFT blocks, split
     * the frames into channels, transform each and stitch the halves. With
     * nothing to read the line is left as it was.
     */
    method Animate(i: nat, spectrum: Magnitude)
      requires Valid() && Transforms(spectrum)
      modifies this`tell, this`ydata
      ensures Valid()
      ensures tell == Step(i, old(tell), Total())
      ensures ReadCount(i, old(tell)) == 0 ==> ydata == old(ydata)
      ensures ReadCount(i, old(tell)) != 0 ==>
        var y := Unpack(data[4 * old(tell) .. 4 * tell]);
        ydata == Stitch(spectrum(Evens(y)), spectrum(Odds(y)))
    {
      var n := (Trunc(((i + 1) * RATE) as real / FPS) - tell) / NFFT;
      if n == 0 {
        return;
      }
      n := n * NFFT;
      var got := FramesRead(n, tell, Total());
      var chunk := data[4 * tell .. 4 * (tell + got)];
      tell := tell + got;
      var y := Unpack(chunk);
      ydata := Stitch(spectrum(Evens(y)), spectrum(Odds(y)));
    }
  }
}
