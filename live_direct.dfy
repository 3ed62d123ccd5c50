/**
 * The earlier live renderer of rgplot_fast/rgl2.go: each display refresh takes
 * the window at time*bytes-per-second straight out of the whole wave data,
 * with no alignment and no bounds check, and draws NFFT centred linear bars.
 */
module DirectLive {
  import opened Numeric
  import opened Samples
  import opened Bars
  import opened Analysis

  const WIDTH: nat := 640
  const NFFT: nat := 640

  /** uint32(time * bpse): a byte offset, used as it is. */
  function TimeOffset(f: Format, time: real): (offset: nat)
    requires time >= 0.0
    ensures offset as real <= time * f.Bpse() < offset as real + 1.0
  {
    var x := time * f.Bpse();
    assert x >= 0.0 by {
      assert f.Bpse() >= 0.0;
    }
    x.Floor
  }

  /** The offset is not aligned to a sample frame: one byte in, the window starts mid-frame. */
  lemma OffsetNotAligned()
    ensures TimeOffset(Format(44100, 16, 2), 1.0 / 176400.0) == 1
    ensures TimeOffset(Format(44100, 16, 2), 1.0 / 176400.0) % Format(44100, 16, 2).Bpsa() != 0
  {
    var f := Format(44100, 16, 2);
    assert f.Bpsa() == 4;
    assert f.Bpse() == 176400.0;
  }

  /** Data[offset : offset + WIDTH*bpsa] is only in range when it ends inside the data. */
  predicate SliceInRange(f: Format, offset: nat, data: seq<byte>)
    ensures |data| < WIDTH * f.Bpsa() ==> !SliceInRange(f, offset, data)
  {
    offset + WIDTH * f.Bpsa() <= |data|
  }

  /** With 4-byte frames the NFFT reads consume the WIDTH*bpsa bytes of the slice exactly. */
  lemma StereoReadsConsumeSlice(f: Format, window: seq<byte>, prev: int)
    requires f.Bpsa() == 4 && |window| == WIDTH * f.Bpsa()
    ensures |window| == 4 * NFFT
    ensures forall i :: 0 <= i < NFFT ==> ReadLeft(window, i, prev) == LeftAt(window, 4 * i)
  {
    FullReads(window, NFFT, prev);
  }

  /** y = real/10, the bar height before the clamp. */
  function LinearHeight(re: real): (y: real)
    ensures ClampHeight(y) == 2.0 <==> re >= 20.0
  {
    re / 10.0
  }

  datatype TickResult = Skipped | Drawn | Panicked

  class View {
    const format: Format
    const data: seq<byte>
    const analyser: Analyser
    var drawn: seq<Rect>
    var shown: seq<seq<Rect>>

    ghost predicate Valid()
      reads this, analyser
    {
      format.Playable() && analyser.Valid() && analyser.size == NFFT
    }

    constructor (format: Format, data: seq<byte>)
      requires format.Playable()
      ensures Valid() && this.format == format && this.data == data
      ensures fresh(analyser) && fresh(analyser.fftData) && analyser.sample == 0
      ensures drawn == [] && shown == []
    {
      this.format := format;
      this.data := data;
      analyser := new Analyser(NFFT);
      drawn := [];
      shown := [];
    }

    /** The bar loop: NFFT rectangles over the remapped bins, height real/10 capped at 2. */
    method DrawBars()
      requires Valid() && drawn == []
      modifies this`drawn
      ensures drawn == BarChart(analyser.fftData[..], NFFT, LinearHeight)
    {
      var fftData := analyser.fftData;
      var barW := 1.0 / NFFT as real;
      var i := 0;
      while i < NFFT
        invariant 0 <= i <= NFFT
        invariant drawn == BarChart(fftData[..], NFFT, LinearHeight)[..i]
      {
        var y := fftData[(i + NFFT / 2) % NFFT].re / 10.0;
        if y > 2.0 {
          y := 2.0;
        }
        var cx := i as real / (NFFT / 2) as real - 1.0;
        drawn := drawn + [Rect(cx - barW, -1.0 + y, cx + barW, -1.0)];
        i := i + 1;
      }
    }

    /**
     * One pass of the render loop at clock reading `time`. A negative time
     * skips the pass, swap included; a slice past the end of the data panics.
     */
    method Tick(time: real, execute: seq<Complex> -> seq<Complex>) returns (result: TickResult)
      requires Valid() && forall s :: |execute(s)| == |s|
      requires time * format.Bpse() < (UINT32 - WIDTH * format.Bpsa()) as real
      modifies this`drawn, this`shown, analyser, analyser.fftData
      ensures Valid()
      ensures result == Skipped <==> time < 0.0
      ensures result == Skipped ==>
        && analyser.fftData[..] == old(analyser.fftData[..]) && analyser.sample == old(analyser.sample)
        && drawn == old(drawn) && shown == old(shown)
      ensures result == Panicked <==> time >= 0.0 && !SliceInRange(format, TimeOffset(format, time), data)
      ensures result == Panicked ==> drawn == old(drawn) && shown == old(shown)
      ensures result == Drawn ==>
        var offset := TimeOffset(format, time);
        var window := data[offset .. offset + WIDTH * format.Bpsa()];
        && analyser.fftData[..] == execute(DecodeLefts(window, NFFT, old(analyser.sample), format.MaxY()))
        && analyser.sample == ReadLeft(window, NFFT - 1, old(analyser.sample))
        && drawn == BarChart(analyser.fftData[..], NFFT, LinearHeight)
        && shown == old(shown) + [drawn]
    {
      if time < 0.0 {
        return Skipped;
      }
      var wavOffset := TimeOffset(format, time);
      var bpsa := format.Bpsa();
      if wavOffset + WIDTH * bpsa > |data| {
        // Slicing past the end of Data panics.
        return Panicked;
      }
      var window := data[wavOffset .. wavOffset + WIDTH * bpsa];
      analyser.Decode(window, format.MaxY());
      analyser.Transform(execute);
      drawn := [];
      DrawBars();
      shown := shown + [drawn];
      return Drawn;
    }
  }
}
