/**
 * The live renderer of rgplot_fast/rgl3.go: each display refresh polls for a
 * new post-mix audio chunk, picks a sample-aligned window inside the current
 * chunk by elapsed time, transforms it and draws NFFT centred log bars.
 */
module ChunkedLive {
  import opened Numeric
  import opened Samples
  import opened Bars
  import opened Analysis

  const NFFT: nat := 2000

  /** Alignment takes wav_offset % bpsa, so bpsa must be non-zero. */
  predicate Aligned(f: Format) {
    f.Playable() && f.Bpsa() >= 1
  }

  /** `wav_offset - wav_offset % bpsa`: the offset rounded down to a whole sample frame. */
  function AlignDown(offset: nat, bpsa: nat): (a: nat)
    requires bpsa >= 1
    ensures a % bpsa == 0
    ensures a <= offset && offset < a + bpsa
  {
    var q, r := offset / bpsa, offset % bpsa;
    DivModUnique(q * bpsa, bpsa, q, 0);
    offset - r
  }

  lemma DivModUnique(m: int, b: nat, q: int, r: int)
    requires b >= 1 && m == q * b + r && 0 <= r < b
    ensures m / b == q && m % b == r
  {
    var q', r' := m / b, m % b;
    assert m == q' * b + r' && 0 <= r' < b;
    assert (q - q') * b == r' - r;
    if q > q' {
      MulAtLeast(q - q', b);
    } else if q < q' {
      MulAtLeast(q' - q, b);
    }
  }

  lemma MulAtLeast(x: int, b: nat)
    requires x >= 1
    ensures x * b >= b
  {
    assert x * b - b == (x - 1) * b;
  }

  /** uint32((time - chunk_time) * bpse): the bytes played since the chunk arrived. */
  function ElapsedBytes(elapsed: real, f: Format): (b: nat)
    requires elapsed >= 0.0
    ensures b as real <= elapsed * f.Bpse() < b as real + 1.0
  {
    var x := elapsed * f.Bpse();
    assert x >= 0.0 by {
      assert f.Bpse() >= 0.0;
    }
    x.Floor
  }

  /** The aligned byte offset of the window `elapsed` seconds after the chunk arrived. */
  function TickOffset(f: Format, elapsed: real): (offset: nat)
    requires Aligned(f) && elapsed >= 0.0
    ensures offset % f.Bpsa() == 0
    ensures offset as real <= elapsed * f.Bpse() < (offset + f.Bpsa()) as real
  {
    AlignDown(ElapsedBytes(elapsed, f), f.Bpsa())
  }

  /** The window is taken only when it ends strictly before the end of the chunk. */
  predicate WindowFits(f: Format, offset: nat, chunk: seq<byte>)
    ensures |chunk| <= NFFT * f.Bpsa() ==> !WindowFits(f, offset, chunk)
  {
    offset + NFFT * f.Bpsa() < |chunk|
  }

  /** A window that passes the fit check lies inside the chunk, with a byte to spare. */
  lemma FittingWindowInChunk(f: Format, offset: nat, chunk: seq<byte>)
    requires Aligned(f) && WindowFits(f, offset, chunk)
    ensures offset < offset + NFFT * f.Bpsa() < |chunk|
  {
  }

  /** The chunk bytes the tick decodes. */
  function Window(f: Format, offset: nat, chunk: seq<byte>): (w: seq<byte>)
    requires WindowFits(f, offset, chunk)
    ensures |w| == NFFT * f.Bpsa()
  {
    chunk[offset .. offset + NFFT * f.Bpsa()]
  }

  /** log(real/20 + 1), the bar height before the clamp; math.Log is not part of this model. */
  type LogCurve = real -> real

  class View {
    const format: Format
    const analyser: Analyser
    /** The last chunk received from the mixer callback. */
    var wavBytes: seq<byte>
    /** The clock reading when that chunk arrived. */
    var chunkTime: real
    /** The bars drawn since the last gl.Clear. */
    var drawn: seq<Rect>
    /** What each glfw.SwapBuffers presented. */
    var shown: seq<seq<Rect>>

    ghost predicate Valid()
      reads this, analyser
    {
      Aligned(format) && analyser.Valid() && analyser.size == NFFT
    }

    constructor (format: Format)
      requires Aligned(format)
      ensures Valid() && this.format == format && fresh(analyser) && fresh(analyser.fftData)
      ensures analyser.sample == 0
      ensures wavBytes == [] && chunkTime == 0.0 && drawn == [] && shown == []
    {
      this.format := format;
      analyser := new Analyser(NFFT);
      wavBytes := [];
      chunkTime := 0.0;
      drawn := [];
      shown := [];
    }

    /** The bar loop: NFFT rectangles over the remapped bins, heights capped at 2. */
    method DrawBars(logCurve: LogCurve)
      requires Valid() && drawn == []
      modifies this`drawn
      ensures drawn == BarChart(analyser.fftData[..], NFFT, logCurve)
    {
      var fftData := analyser.fftData;
      var barW := 1.0 / NFFT as real;
      var i := 0;
      while i < NFFT
        invariant 0 <= i <= NFFT
        invariant drawn == BarChart(fftData[..], NFFT, logCurve)[..i]
      {
        var y := logCurve(fftData[(i + NFFT / 2) % NFFT].re);
        if y > 2.0 {
          y := 2.0;
        }
        var cx := i as real / (NFFT / 2) as real - 1.0;
        drawn := drawn + [Rect(cx - barW, -1.0 + y, cx + barW, -1.0)];
        i := i + 1;
      }
    }

    /** The select statement: a chunk waiting on the channel replaces the current one. */
    method Poll(chunk: Option<seq<byte>>, clock: real)
      modifies this`wavBytes, this`chunkTime
      ensures chunk.Some? ==> wavBytes == chunk.value && chunkTime == clock
      ensures chunk.None? ==> wavBytes == old(wavBytes) && chunkTime == old(chunkTime)
    {
      if chunk.Some? {
        wavBytes := chunk.value;
        chunkTime := clock;
      }
    }

    /**
     * The rest of the pass: clear, align the offset for the time elapsed since
     * the chunk arrived, decode, transform and draw when the window fits, swap.
     */
    method Render(now: real, execute: seq<Complex> -> seq<Complex>, logCurve: LogCurve)
      requires Valid() && forall s :: |execute(s)| == |s|
      requires chunkTime <= now
      requires (now - chunkTime) * format.Bpse() < (UINT32 - NFFT * format.Bpsa()) as real
      modifies this`drawn, this`shown, analyser, analyser.fftData
      ensures Valid()
      ensures var offset := TickOffset(format, now - chunkTime);
        if WindowFits(format, offset, wavBytes) then
          var window := Window(format, offset, wavBytes);
          && analyser.fftData[..] == execute(DecodeLefts(window, NFFT, old(analyser.sample), format.MaxY()))
          && analyser.sample == ReadLeft(window, NFFT - 1, old(analyser.sample))
          && drawn == BarChart(analyser.fftData[..], NFFT, logCurve)
        else
          && analyser.fftData[..] == old(analyser.fftData[..]) && analyser.sample == old(analyser.sample)
          && drawn == []
      ensures shown == old(shown) + [drawn]
    {
      drawn := [];
      var elapsed := now - chunkTime;
      var bpsa := format.Bpsa();
      var wavOffset: int := ElapsedBytes(elapsed, format);
      // Align it to a multiple of the bytes per sample frame.
      wavOffset := wavOffset - wavOffset % bpsa;
      assert wavOffset == TickOffset(format, elapsed);
      if wavOffset + NFFT * bpsa < |wavBytes| {
        var window := wavBytes[wavOffset .. wavOffset + NFFT * bpsa];
        analyser.Decode(window, format.MaxY());
        analyser.Transform(execute);
        DrawBars(logCurve);
      }
      shown := shown + [drawn];
    }

    /**
     * One pass of the render loop. `chunk` is what the non-blocking poll of the
     * mixer channel found, `clock` the time it was taken, `now` the time read
     * after it.
     */
    method Tick(chunk: Option<seq<byte>>, clock: real, now: real,
                execute: seq<Complex> -> seq<Complex>, logCurve: LogCurve)
      requires Valid()
      requires forall s :: |execute(s)| == |s|
      requires (if chunk.Some? then clock else chunkTime) <= now
      requires (now - (if chunk.Some? then clock else chunkTime)) * format.Bpse()
               < (UINT32 - NFFT * format.Bpsa()) as real
      modifies this`wavBytes, this`chunkTime, this`drawn, this`shown, analyser, analyser.fftData
      ensures Valid()
      ensures chunk.Some? ==> wavBytes == chunk.value && chunkTime == clock
      ensures chunk.None? ==> wavBytes == old(wavBytes) && chunkTime == old(chunkTime)
      ensures var offset := TickOffset(format, now - chunkTime);
        if WindowFits(format, offset, wavBytes) then
          var window := Window(format, offset, wavBytes);
          && analyser.fftData[..] == execute(DecodeLefts(window, NFFT, old(analyser.sample), format.MaxY()))
          && analyser.sample == ReadLeft(window, NFFT - 1, old(analyser.sample))
          && drawn == BarChart(analyser.fftData[..], NFFT, logCurve)
        else
          && analyser.fftData[..] == old(analyser.fftData[..]) && analyser.sample == old(analyser.sample)
          && drawn == []
      ensures shown == old(shown) + [drawn]
    {
      Poll(chunk, clock);
      Render(now, execute, logCurve);
    }
  }

  /** For 16-bit data every value the tick feeds the transform lies in [-1/2, 1/2). */
  lemma SixteenBitTickValues(window: seq<byte>, prev: int, k: nat)
    requires -0x8000 <= prev < 0x8000 && k < NFFT
    ensures -0.5 <= DecodeLefts(window, NFFT, prev, Format(44100, 16, 2).MaxY())[k].re < 0.5
  {
    Pow2Sixteen();
    HalfUnitRange(window, NFFT, prev, k);
  }
}
