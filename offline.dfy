/**
 * The offline renderer of rgplot_fast/basics.go: a frame pump that slices one
 * audio window per video frame, runs the FFT over it and plots one bright
 * pixel per column into a BGRA buffer that is written to the encoder.
 */
module Offline {
  import opened Numeric
  import opened Samples

  const FPS: nat := 25
  const WIDTH: nat := 640
  const HEIGHT: nat := 480
  const NFFT: nat := WIDTH
  const BUF_LEN: nat := WIDTH * HEIGHT * 4
  /** Gain applied to a bin's real part before it is turned into a row. */
  const GAIN: real := 40.0
  /** Pixels are stored blue, green, red, alpha. */
  const BACKGROUND: seq<byte> := [0, 0, 0, 255]
  const WHITE: seq<byte> := [255, 255, 255, 255]

  /** The decoded wave file: raw interleaved bytes plus its header fields. */
  datatype Wave = Wave(data: seq<byte>, sampleRate: nat, bits: nat, channels: nat)
  {
    /**
     * The frame loop divides by bits/8, by the channel count and by SPF, so
     * each must be non-zero; all sizes fit the uint32 arithmetic of the loop.
     */
    predicate Renderable() {
      && 8 <= bits < 0x1_0000
      && 1 <= channels < 0x1_0000
      && FPS <= sampleRate < UINT32
      && |data| + 4 * NFFT < UINT32
    }

    /** SAMPLES: the number of sample frames in the data. */
    function SampleCount(): (s: nat)
      requires Renderable()
      ensures s * channels * (bits / 8) <= |data|
    {
      var width := bits / 8;
      var frames := |data| / width;
      assert frames >= 0;
      var s := frames / channels;
      MulBelowQuotient(s, frames, channels);
      MulBelowQuotient(s * channels, |data|, width);
      s
    }

    /** SPF: samples per video frame, the step between windows. */
    function Spf(): (spf: nat)
      requires Renderable()
      ensures spf >= 1
    {
      sampleRate / FPS
    }

    /** N: samples taken per frame, the smaller of NFFT and SPF. */
    function WindowLen(): (n: nat)
      requires Renderable()
      ensures n <= NFFT && n <= Spf()
      ensures n == NFFT || n == Spf()
    {
      if NFFT > Spf() then Spf() else NFFT
    }

    /** The number of iterations of the frame loop. */
    function FrameCount(): (k: nat)
      requires Renderable()
      ensures k * Spf() <= SampleCount()
    {
      MulBelowQuotient(SampleCount() / Spf(), SampleCount(), Spf());
      SampleCount() / Spf()
    }

    /**
     * max_y: (1 << bits) - 1 in uint32, where a shift by 32 or more gives 0
     * and the subtraction wraps around.
     */
    function MaxY(): (m: real)
      requires Renderable()
      ensures m >= 1.0
    {
      if bits >= 32 then (UINT32 - 1) as real else (Pow2(bits) - 1) as real
    }

    /** The window's byte offset: frame*SPF, a sample count used as a byte index. */
    function WindowStart(frame: nat): (start: nat)
      requires Renderable()
      ensures frame < FrameCount() ==> start + Spf() <= SampleCount()
    {
      if frame < FrameCount() then
        MulBelowQuotient(frame + 1, SampleCount(), Spf());
        assert (frame + 1) * Spf() == frame * Spf() + Spf();
        frame * Spf()
      else
        frame * Spf()
    }

    /** Whether Data[frame*SPF : frame*SPF + 4N] lies inside the data. */
    predicate WindowFits(frame: nat)
      requires Renderable()
      ensures |data| < 4 * WindowLen() ==> !WindowFits(frame)
    {
      WindowStart(frame) + 4 * WindowLen() <= |data|
    }

    /** The x-th window value: L of the x-th 4-byte Sample of the window over max_y. */
    function Normalised(frame: nat, x: nat): real
      requires Renderable() && WindowFits(frame) && x < WindowLen()
    {
      LeftAt(data, WindowStart(frame) + 4 * x) as real / MaxY()
    }
  }

  /** For 16-bit data every window value lies strictly inside (-1, 1). */
  lemma SixteenBitNormalisedInOpenUnit(w: Wave, frame: nat, x: nat)
    requires w.Renderable() && w.bits == 16 && w.WindowFits(frame) && x < w.WindowLen()
    ensures -1.0 < w.Normalised(frame, x) < 1.0
  {
    Pow2Sixteen();
    assert w.MaxY() == 65535.0;
    var v := LeftAt(w.data, w.WindowStart(frame) + 4 * x);
    assert -32768.0 <= v as real < 32768.0;
  }

  lemma {:induction false} MulBelowQuotient(a: nat, b: nat, d: nat)
    requires d >= 1 && a <= b / d
    ensures a * d <= b
  {
    var q := b / d;
    assert q * d + b % d == b;
    assert (q - a) * d >= 0;
  }

  /**
   * For 16-bit stereo data the window of every frame the loop runs lies inside
   * the data, so the slice never panics.
   */
  lemma StereoWindowsFit(w: Wave)
    requires w.Renderable() && w.bits == 16 && w.channels == 2
    ensures forall f :: 0 <= f < w.FrameCount() ==> w.WindowFits(f)
  {
    var spf, s := w.Spf(), w.SampleCount();
    assert s == |w.data| / 4;
    forall f | 0 <= f < w.FrameCount()
      ensures w.WindowFits(f)
    {
      MulBelowQuotient(f + 1, s, spf);
      assert (f + 1) * spf == f * spf + spf;
      assert 4 * s <= |w.data|;
    }
  }

  /**
   * Byte k of a 4-byte group after Go's copy(group, col), which moves
   * min(4, |col|) bytes and leaves the rest alone.
   */
  function Copied(orig: byte, col: seq<byte>, k: nat): byte
  {
    if k < |col| then col[k] else orig
  }

  /** copy(buf[i:i+4], col) */
  method CopyGroup(buf: array<byte>, i: nat, col: seq<byte>)
    requires i + 4 <= buf.Length
    modifies buf
    ensures forall j :: 0 <= j < buf.Length ==>
      buf[j] == if i <= j < i + 4 then Copied(old(buf[j]), col, j - i) else old(buf[j])
  {
    forall j | i <= j < i + 4 && j - i < |col| {
      buf[j] := col[j - i];
    }
  }

  /** fill_color: copy col into every 4-byte group of buf, which must be whole groups. */
  method FillColor(buf: array<byte>, col: seq<byte>)
    requires buf.Length % 4 == 0
    modifies buf
    ensures forall j :: 0 <= j < buf.Length ==> buf[j] == Copied(old(buf[j]), col, j % 4)
  {
    var i := 0;
    while i < buf.Length
      invariant 0 <= i <= buf.Length && i % 4 == 0
      invariant forall j :: 0 <= j < i ==> buf[j] == Copied(old(buf[j]), col, j % 4)
      invariant forall j :: i <= j < buf.Length ==> buf[j] == old(buf[j])
    {
      CopyGroup(buf, i, col);
      i := i + 4;
    }
  }

  /**
   * The column rule: the row lit for a bin whose real part is re, or None when
   * HEIGHT - 40*re is negative and the column is skipped. Values past the last
   * row are clamped to it; the rest are truncated to a whole row.
   */
  function PlotRow(re: real): (row: Option<nat>)
    ensures row.None? <==> HEIGHT as real - re * GAIN < 0.0
    ensures row.Some? ==> row.value < HEIGHT
    ensures row.Some? && HEIGHT as real - re * GAIN > (HEIGHT - 1) as real ==> row.value == HEIGHT - 1
    ensures row.Some? && HEIGHT as real - re * GAIN <= (HEIGHT - 1) as real ==>
      row.value as real <= HEIGHT as real - re * GAIN < row.value as real + 1.0
  {
    var y := HEIGHT as real - re * GAIN;
    if y < 0.0 then None
    else if y > (HEIGHT - 1) as real then Some(HEIGHT - 1)
    else Some(y.Floor)
  }

  /** A zero bin, and every negative one, lights the bottom row. */
  lemma NonPositiveBinLightsBottomRow(re: real)
    requires re <= 0.0
    ensures PlotRow(re) == Some(HEIGHT - 1)
  {
  }

  /** A bin above HEIGHT/40 = 12 leaves its column dark; 12 itself lights the top row. */
  lemma LargeBinSkipsColumn(re: real)
    ensures re > 12.0 ==> PlotRow(re) == None
    ensures re == 12.0 ==> PlotRow(re) == Some(0)
  {
  }

  /** buf_offset = y*WIDTH*4 + x*4: the first byte of pixel (x, y). */
  function PixelOffset(x: nat, y: nat): (off: nat)
    requires x < WIDTH && y < HEIGHT
    ensures off % 4 == 0 && off + 4 <= BUF_LEN
    ensures forall j :: off <= j < off + 4 ==> j / 4 % WIDTH == x && j / 4 / WIDTH == y && j % 4 == j - off
  {
    y * WIDTH * 4 + x * 4
  }

  /** Every byte index splits into its row, its column and its place in the pixel. */
  lemma ByteOfPixel(j: nat)
    ensures j == (j / 4 / WIDTH) * WIDTH * 4 + (j / 4 % WIDTH) * 4 + j % 4
  {
    var p := j / 4;
    assert j == 4 * p + j % 4;
    assert p == WIDTH * (p / WIDTH) + p % WIDTH;
  }

  /** Pixel p (row-major) is lit when columns [0, cols) of re have been plotted. */
  predicate Lit(re: seq<real>, cols: nat, p: nat)
  {
    var x := p % WIDTH;
    x < cols && x < |re| && PlotRow(re[x]) == Some(p / WIDTH)
  }

  function ImageByte(re: seq<real>, cols: nat, j: nat): byte
  {
    if Lit(re, cols, j / 4) then WHITE[j % 4] else BACKGROUND[j % 4]
  }

  /** The frame the loop emits for bin real parts re: background plus the plotted pixels. */
  function FrameImage(re: seq<real>): (img: seq<byte>)
    ensures |img| == BUF_LEN
    ensures forall j :: 0 <= j < BUF_LEN ==> img[j] == ImageByte(re, |re|, j)
  {
    seq(BUF_LEN, j requires 0 <= j < BUF_LEN => ImageByte(re, |re|, j))
  }

  /** Plotting column x changes exactly the four bytes of the pixel PlotRow picks in it. */
  lemma ImageColumnStep(re: seq<real>, x: nat, j: nat)
    requires x < |re| && x < WIDTH
    ensures PlotRow(re[x]).None? ==> ImageByte(re, x + 1, j) == ImageByte(re, x, j)
    ensures PlotRow(re[x]).Some? ==>
      var off := PixelOffset(x, PlotRow(re[x]).value);
      ImageByte(re, x + 1, j) == if off <= j < off + 4 then WHITE[j - off] else ImageByte(re, x, j)
  {
    ByteOfPixel(j);
  }

  /**
   * A frame differs from the background only in white pixels, at most one per
   * column, and only in columns below |re|.
   */
  lemma {:induction false} AtMostOnePixelPerColumn(re: seq<real>, p: nat, q: nat)
    requires Lit(re, |re|, p) && Lit(re, |re|, q) && p % WIDTH == q % WIDTH
    ensures p == q && p % WIDTH < |re|
  {
    assert p / WIDTH == q / WIDTH;
    assert p == WIDTH * (p / WIDTH) + p % WIDTH;
    assert q == WIDTH * (q / WIDTH) + q % WIDTH;
  }

  /** Each column x < |re| whose bin is not skipped has its pixel lit. */
  lemma PlottedPixelIsLit(re: seq<real>, x: nat)
    requires x < |re| && x < WIDTH && PlotRow(re[x]).Some?
    ensures Lit(re, |re|, PlotRow(re[x]).value * WIDTH + x)
  {
  }

  /** An all-zero spectrum lights exactly the bottom row of the plotted columns. */
  lemma ZeroSpectrumLightsBottomRow(re: seq<real>, p: nat)
    requires forall k :: 0 <= k < |re| ==> re[k] == 0.0
    requires p < WIDTH * HEIGHT
    ensures Lit(re, |re|, p) <==> p % WIDTH < |re| && p / WIDTH == HEIGHT - 1
  {
    if p % WIDTH < |re| {
      NonPositiveBinLightsBottomRow(re[p % WIDTH]);
    }
  }

  ghost predicate LengthPreserving(execute: seq<Complex> -> seq<Complex>)
  {
    forall s :: |execute(s)| == |s|
  }

  function Zeros(n: nat): (s: seq<Complex>)
    ensures |s| == n && forall k :: 0 <= k < n ==> s[k] == Complex(0.0, 0.0)
  {
    seq(n, _ => Complex(0.0, 0.0))
  }

  /**
   * fft_data before the transform of a frame: the first N entries hold the
   * window, the rest keep what the previous transform left there.
   */
  function FftInput(w: Wave, frame: nat, prev: seq<Complex>): (inp: seq<Complex>)
    requires w.Renderable() && w.WindowFits(frame) && |prev| == NFFT
    ensures |inp| == NFFT
    ensures forall x :: 0 <= x < w.WindowLen() ==> inp[x] == Complex(w.Normalised(frame, x), 0.0)
    ensures forall x :: w.WindowLen() <= x < NFFT ==> inp[x] == prev[x]
  {
    seq(NFFT, x requires 0 <= x < NFFT =>
      if x < w.WindowLen() then Complex(w.Normalised(frame, x), 0.0) else prev[x])
  }

  /** fft_data after `frames` frames: zeroed by the allocation, then transformed once per frame. */
  function SpectrumAfter(w: Wave, execute: seq<Complex> -> seq<Complex>, frames: nat): (s: seq<Complex>)
    requires w.Renderable() && LengthPreserving(execute)
    requires forall f :: 0 <= f < frames ==> w.WindowFits(f)
    ensures |s| == NFFT
  {
    if frames == 0 then Zeros(NFFT)
    else execute(FftInput(w, frames - 1, SpectrumAfter(w, execute, frames - 1)))
  }

  /** The buffer written to the encoder for frame f. */
  function FrameOf(w: Wave, execute: seq<Complex> -> seq<Complex>, frame: nat): (img: seq<byte>)
    requires w.Renderable() && LengthPreserving(execute)
    requires forall f :: 0 <= f <= frame ==> w.WindowFits(f)
    ensures |img| == BUF_LEN
  {
    FrameImage(RealParts(SpectrumAfter(w, execute, frame + 1)[..w.WindowLen()]))
  }

  datatype Outcome = Done | Panic(frame: nat)

  /** The state of main's frame loop: the pixel buffer, the FFT buffer and the encoder's input. */
  class Pump {
    const wave: Wave
    const buf: array<byte>
    const fftData: array<Complex>
    /** The frames written to the encoder's standard input so far. */
    var sink: seq<seq<byte>>

    ghost predicate Valid()
      reads this
    {
      wave.Renderable() && buf.Length == BUF_LEN && fftData.Length == NFFT
    }

    constructor (wave: Wave)
      requires wave.Renderable()
      ensures Valid() && this.wave == wave && fresh(buf) && fresh(fftData)
      ensures sink == [] && fftData[..] == Zeros(NFFT)
    {
      this.wave := wave;
      buf := new byte[BUF_LEN];
      fftData := new Complex[NFFT](_ => Complex(0.0, 0.0));
      sink := [];
    }

    /** The column loop: light one pixel per column x < n over a background-filled buffer. */
    method PlotColumns(n: nat)
      requires Valid() && n <= NFFT
      requires forall j :: 0 <= j < BUF_LEN ==> buf[j] == BACKGROUND[j % 4]
      modifies buf
      ensures buf[..] == FrameImage(RealParts(fftData[..n]))
    {
      ghost var re := RealParts(fftData[..n]);
      var x := 0;
      while x < n
        invariant 0 <= x <= n
        invariant forall j :: 0 <= j < BUF_LEN ==> buf[j] == ImageByte(re, x, j)
      {
        var tmpY := HEIGHT as real - fftData[x].re * GAIN;
        if tmpY < 0.0 {
          forall j | 0 <= j < BUF_LEN ensures buf[j] == ImageByte(re, x + 1, j) {
            ImageColumnStep(re, x, j);
          }
          x := x + 1;
          continue;
        }
        if tmpY > (HEIGHT - 1) as real {
          tmpY := (HEIGHT - 1) as real;
        }
        var y := tmpY.Floor;
        assert PlotRow(re[x]) == Some(y);
        var off := y * WIDTH * 4 + x * 4;
        CopyGroup(buf, off, WHITE);
        forall j | 0 <= j < BUF_LEN ensures buf[j] == ImageByte(re, x + 1, j) {
          ImageColumnStep(re, x, j);
        }
        x := x + 1;
      }
      assert buf[..] == FrameImage(re);
    }

    /**
     * One frame: fill the background, slice and decode the window, transform
     * it, plot it. Returns false where slicing the window would panic.
     */
    method RenderFrame(frame: nat, execute: seq<Complex> -> seq<Complex>) returns (ok: bool)
      requires Valid() && LengthPreserving(execute) && frame < wave.FrameCount()
      modifies buf, fftData
      ensures ok == wave.WindowFits(frame)
      ensures ok ==> fftData[..] == execute(FftInput(wave, frame, old(fftData[..])))
      ensures ok ==> buf[..] == FrameImage(RealParts(fftData[..wave.WindowLen()]))
      ensures !ok ==> fftData[..] == old(fftData[..])
    {
      FillColor(buf, BACKGROUND);
      var n := wave.WindowLen();
      var offset := frame * wave.Spf();
      if offset + n * 4 > |wave.data| {
        return false;
      }
      ok := true;
      var window := wave.data[offset .. offset + n * 4];
      var maxY := wave.MaxY();
      var x := 0;
      while x < n
        invariant 0 <= x <= n
        invariant forall i :: 0 <= i < x ==> fftData[i] == Complex(wave.Normalised(frame, i), 0.0)
        invariant forall i :: x <= i < NFFT ==> fftData[i] == old(fftData[i])
        invariant forall j :: 0 <= j < BUF_LEN ==> buf[j] == BACKGROUND[j % 4]
      {
        fftData[x] := Complex(LeftAt(window, 4 * x) as real / maxY, 0.0);
        x := x + 1;
      }
      assert fftData[..] == FftInput(wave, frame, old(fftData[..]));
      // fft_f.Execute() transforms fft_data in place.
      var out := execute(fftData[..]);
      forall i | 0 <= i < NFFT {
        fftData[i] := out[i];
      }
      assert fftData[..] == out;
      PlotColumns(n);
    }

    /**
     * main's frame loop: frames 0 .. SAMPLES/SPF-1 in order, one buffer written
     * to the encoder per frame. A window that does not fit the data panics, so
     * the run stops at the first such frame.
     */
    method Run(execute: seq<Complex> -> seq<Complex>) returns (outcome: Outcome)
      requires Valid() && LengthPreserving(execute)
      requires sink == [] && fftData[..] == Zeros(NFFT)
      modifies buf, fftData, this`sink
      ensures outcome == Done ==> |sink| == wave.FrameCount()
      ensures outcome.Panic? ==> outcome.frame == |sink| < wave.FrameCount() && !wave.WindowFits(outcome.frame)
      ensures forall f :: 0 <= f < |sink| ==> wave.WindowFits(f)
      ensures forall f :: 0 <= f < |sink| ==> sink[f] == FrameOf(wave, execute, f)
    {
      var frame := 0;
      while frame < wave.FrameCount()
        invariant 0 <= frame <= wave.FrameCount()
        invariant |sink| == frame
        invariant forall f :: 0 <= f < frame ==> wave.WindowFits(f)
        invariant fftData[..] == SpectrumAfter(wave, execute, frame)
        invariant forall f :: 0 <= f < frame ==> sink[f] == FrameOf(wave, execute, f)
      {
        var ok := RenderFrame(frame, execute);
        if !ok {
          return Panic(frame);
        }
        sink := sink + [buf[..]];
        frame := frame + 1;
      }
      return Done;
    }
  }

  /** With 16-bit stereo data the loop always runs to completion. */
  lemma StereoRunEmitsEveryFrame(w: Wave, outcome: Outcome, emitted: nat)
    requires w.Renderable() && w.bits == 16 && w.channels == 2
    requires outcome.Panic? ==> outcome.frame < w.FrameCount() && !w.WindowFits(outcome.frame)
    requires outcome == Done ==> emitted == w.FrameCount()
    ensures outcome == Done && emitted == w.FrameCount()
  {
    StereoWindowsFit(w);
  }
}
