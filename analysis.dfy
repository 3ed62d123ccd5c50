/**
 * What the two live renderers share: the wave header fields their loops use,
 * and the FFT buffer, fft_data, together with the `sample` variable the window
 * is decoded through, both living for the whole run.
 */
module Analysis {
  import opened Numeric
  import opened Samples

  datatype Format = Format(sampleRate: nat, bits: nat, channels: nat)
  {
    /** bpsa: bytes per sample frame. */
    function Bpsa(): nat {
      channels * (bits / 8)
    }

    /** bpse: bytes per second. */
    function Bpse(): real {
      (sampleRate * Bpsa()) as real
    }

    /** `1 << bits` is a 64-bit shift, and SampleRate * bpsa and bpsa are uint32s. */
    predicate Playable() {
      Bpsa() < 0x1_0000 && bits < 63 && sampleRate * Bpsa() < UINT32
    }

    /** max_y: float64(1 << bits), without the minus one of the offline renderer. */
    function MaxY(): (m: real)
      requires Playable()
      ensures m >= 1.0
    {
      Pow2(bits) as real
    }
  }

  class Analyser {
    const size: nat
    const fftData: array<Complex>
    /** Go's `sample` variable, which keeps its value across reads and ticks. */
    var sample: int

    ghost predicate Valid()
      reads this
    {
      fftData.Length == size && -0x8000 <= sample < 0x8000
    }

    /** fftw.Alloc1d(size) and a zero Sample. */
    constructor (size: nat)
      ensures Valid() && this.size == size && fresh(fftData) && sample == 0
      ensures forall k :: 0 <= k < size ==> fftData[k] == Complex(0.0, 0.0)
    {
      this.size := size;
      fftData := new Complex[size](_ => Complex(0.0, 0.0));
      sample := 0;
    }

    /** Read `size` Samples from a buffer over the window into fft_data, each L divided by maxY. */
    method Decode(window: seq<byte>, maxY: real)
      requires Valid() && maxY > 0.0 && size >= 1
      modifies fftData, this`sample
      ensures Valid()
      ensures fftData[..] == DecodeLefts(window, size, old(sample), maxY)
      ensures sample == ReadLeft(window, size - 1, old(sample))
    {
      ghost var prev := sample;
      var i := 0;
      while i < size
        invariant 0 <= i <= size && -0x8000 <= sample < 0x8000
        invariant sample == if i == 0 then prev else ReadLeft(window, i - 1, prev)
        invariant forall k :: 0 <= k < i ==> fftData[k] == Complex(ReadLeft(window, k, prev) as real / maxY, 0.0)
      {
        // binary.Read fills `sample` only when a whole 4-byte frame remains.
        if 4 * (i + 1) <= |window| {
          sample := LeftAt(window, 4 * i);
        }
        fftData[i] := Complex(sample as real / maxY, 0.0);
        i := i + 1;
      }
      assert fftData[..] == DecodeLefts(window, size, prev, maxY);
    }

    /** fft_f.Execute(): the transform runs in place over fft_data. */
    method Transform(execute: seq<Complex> -> seq<Complex>)
      requires Valid() && forall s :: |execute(s)| == |s|
      modifies fftData
      ensures fftData[..] == execute(old(fftData[..]))
    {
      var out := execute(fftData[..]);
      forall i | 0 <= i < size {
        fftData[i] := out[i];
      }
      assert fftData[..] == out;
    }
  }
}
