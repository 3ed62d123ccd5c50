/**
 * The Python prototype rgplot/rgplot.py: the left channel is cut into
 * per-video-frame windows, and each frame scrolls the picture and pastes, for
 * every FFT bin, a column of a red-to-green gradient strip whose height
 * follows the bin's magnitude.
 */
module RgPlot {
  import opened Numeric

  const FPS: real := 25.0
  const NFFT: nat := 256
  const RATE: nat := 44100
  /** MAX_Y = 2.0**(SAMPLE_SIZE * 8 - 1) with SAMPLE_SIZE = 2. */
  const MAX_Y: real := 32768.0
  const LINE_HEIGHT: nat := 180
  /** The size of the picture, Image.new("RGB", (1280, 720)). */
  const IMAGE_WIDTH: nat := 1280
  const IMAGE_HEIGHT: nat := 720

  datatype Rgb = Rgb(r: int, g: int, b: int)

  predicate IsChannel(c: int) {
    0 <= c <= 255
  }

  predicate IsColor(c: Rgb) {
    IsChannel(c.r) && IsChannel(c.g) && IsChannel(c.b)
  }

  /** int(start + (end - start) * i) for one channel. */
  function Mix(i: real, s: int, e: int): (m: int)
    ensures i == 0.0 ==> m == s
    ensures i == 1.0 ==> m == e
  {
    Trunc(s as real + (e - s) as real * i)
  }

  /** interpolate(i, start, end): the colour a fraction i of the way from start to end, truncated. */
  function Interpolate(i: real, start: Rgb, end: Rgb): (c: Rgb)
    ensures i == 0.0 ==> c == start
    ensures i == 1.0 ==> c == end
  {
    Rgb(Mix(i, start.r, end.r), Mix(i, start.g, end.g), Mix(i, start.b, end.b))
  }

  /** One channel of the mix lies between the two ends for i in [0, 1]. */
  lemma {:induction false} MixBetween(i: real, s: int, e: int)
    requires 0.0 <= i <= 1.0
    ensures s <= e ==> s <= Mix(i, s, e) <= e
    ensures e <= s ==> e <= Mix(i, s, e) <= s
  {
    var x := MixPoint(i, s, e);
    if s <= e {
      TruncBetween(x, s, e);
    } else {
      TruncBetween(x, e, s);
    }
  }

  /** The point Mix truncates lies between the two ends. */
  lemma MixPoint(i: real, s: int, e: int) returns (x: real)
    requires 0.0 <= i <= 1.0
    ensures x == s as real + (e - s) as real * i
    ensures s <= e ==> s as real <= x <= e as real
    ensures e <= s ==> e as real <= x <= s as real
  {
    var a, b := s as real, e as real;
    assert (e - s) as real == b - a;
    x := a + (b - a) * i;
    if s <= e {
      Convex(a, b, i);
    } else {
      ConvexDown(a, b, i);
    }
  }

  /** A point a fraction i of the way from a up to b lies between them. */
  lemma Convex(a: real, b: real, i: real)
    requires a <= b && 0.0 <= i <= 1.0
    ensures a <= a + (b - a) * i <= b
  {
    NonNegProduct(b - a, i);
    NonNegProduct(b - a, 1.0 - i);
    assert (b - a) * (1.0 - i) == (b - a) - (b - a) * i;
  }

  /** A point a fraction i of the way from a down to b lies between them. */
  lemma ConvexDown(a: real, b: real, i: real)
    requires b <= a && 0.0 <= i <= 1.0
    ensures b <= a + (b - a) * i <= a
  {
    NonNegProduct(a - b, i);
    NonNegProduct(a - b, 1.0 - i);
    assert (a - b) * (1.0 - i) == (a - b) - (a - b) * i;
    assert (b - a) * i == -((a - b) * i);
  }

  /** Truncation keeps a value between two integers that bound it. */
  lemma TruncBetween(x: real, lo: int, hi: int)
    requires lo as real <= x <= hi as real
    ensures lo <= Trunc(x) <= hi
  {
  }

  lemma NonNegProduct(a: real, b: real)
    requires a >= 0.0 && b >= 0.0
    ensures a * b >= 0.0
  {
  }

  /** Interpolating between two colours stays a colour. */
  lemma InterpolateIsColor(i: real, start: Rgb, end: Rgb)
    requires 0.0 <= i <= 1.0 && IsColor(start) && IsColor(end)
    ensures IsColor(Interpolate(i, start, end))
  {
    MixBetween(i, start.r, end.r);
    MixBetween(i, start.g, end.g);
    MixBetween(i, start.b, end.b);
  }

  /** hi = int(math.floor(h / 60)) % 6: the sector of the colour wheel, Python's floor modulo. */
  function Sector(h: real): (hi: int)
    ensures 0 <= hi < 6
  {
    (h / 60.0).Floor % 6
  }

  /** f = h/60 - floor(h/60): the position inside the sector. */
  function SectorFraction(h: real): (f: real)
    ensures 0.0 <= f < 1.0
  {
    h / 60.0 - (h / 60.0).Floor as real
  }

  /** int(x * 255): a unit intensity as an 8-bit channel. */
  function Channel(x: real): (c: int)
    ensures IsUnit(x) ==> IsChannel(c)
  {
    Trunc(x * 255.0)
  }

  /** The unit intensities (r, g, b) hsv2rgb picks from v, p, q and t by sector. */
  function SectorIntensities(h: real, s: real, v: real): (rgb: (real, real, real))
    ensures rgb.0 == v || rgb.1 == v || rgb.2 == v
    ensures var p := v * (1.0 - s); rgb.0 == p || rgb.1 == p || rgb.2 == p
  {
    var f := SectorFraction(h);
    var p := v * (1.0 - s);
    var q := v * (1.0 - f * s);
    var t := v * (1.0 - (1.0 - f) * s);
    var hi := Sector(h);
    if hi == 0 then (v, t, p)
    else if hi == 1 then (q, v, p)
    else if hi == 2 then (p, v, t)
    else if hi == 3 then (p, q, v)
    else if hi == 4 then (t, p, v)
    else (v, p, q)
  }

  /** hsv2rgb(h, s, v): the six-sector conversion, each channel truncated to an int. */
  function Hsv2Rgb(h: real, s: real, v: real): (c: Rgb)
    ensures c.r == Channel(v) || c.g == Channel(v) || c.b == Channel(v)
    ensures var p := Channel(v * (1.0 - s)); c.r == p || c.g == p || c.b == p
  {
    var (r, g, b) := SectorIntensities(h, s, v);
    Rgb(Channel(r), Channel(g), Channel(b))
  }

  /** With no saturation every sector gives the grey (v, v, v). */
  lemma Hsv2RgbGrey(h: real, v: real)
    ensures Hsv2Rgb(h, 0.0, v) == Rgb(Channel(v), Channel(v), Channel(v))
  {
    var f := SectorFraction(h);
    assert f * 0.0 == 0.0 && (1.0 - f) * 0.0 == 0.0;
    assert SectorIntensities(h, 0.0, v) == (v, v, v);
  }

  lemma UnitProduct(a: real, b: real)
    requires 0.0 <= a <= 1.0 && 0.0 <= b <= 1.0
    ensures 0.0 <= a * b <= 1.0
  {
    NonNegProduct(a, b);
    NonNegProduct(a, 1.0 - b);
  }

  /** v * (1 - x * s) for x, s and v in [0, 1] is itself in [0, 1]. */
  lemma ScaledComplement(v: real, x: real, s: real)
    requires 0.0 <= v <= 1.0 && 0.0 <= x <= 1.0 && 0.0 <= s <= 1.0
    ensures 0.0 <= v * (1.0 - x * s) <= 1.0
  {
    UnitProduct(x, s);
    UnitProduct(v, 1.0 - x * s);
  }

  predicate IsUnit(x: real) {
    0.0 <= x <= 1.0
  }

  /** For saturation and value in [0, 1] all three intensities lie in [0, 1]. */
  lemma SectorIntensitiesInUnit(h: real, s: real, v: real)
    requires IsUnit(s) && IsUnit(v)
    ensures var (r, g, b) := SectorIntensities(h, s, v); IsUnit(r) && IsUnit(g) && IsUnit(b)
  {
    var f := SectorFraction(h);
    ScaledComplement(v, 1.0, s);
    assert IsUnit(v * (1.0 - s)) by {
      assert v * (1.0 - s) == v * (1.0 - 1.0 * s);
    }
    ScaledComplement(v, f, s);
    ScaledComplement(v, 1.0 - f, s);
  }

  /** For saturation and value in [0, 1] every channel hsv2rgb gives is in 0..255. */
  lemma Hsv2RgbIsColor(h: real, s: real, v: real)
    requires IsUnit(s) && IsUnit(v)
    ensures IsColor(Hsv2Rgb(h, s, v))
  {
    SectorIntensitiesInUnit(h, s, v);
    var (r, g, b) := SectorIntensities(h, s, v);
  }

  /** Full saturation and value, hue in [0, 60): red is full and green rises with the hue. */
  lemma Hsv2RgbRedToYellow(h: real)
    requires 0.0 <= h < 60.0
    ensures Hsv2Rgb(h, 1.0, 1.0) == Rgb(255, Channel(h / 60.0), 0)
  {
    assert (h / 60.0).Floor == 0;
  }

  /** Full saturation and value, hue in [60, 120): green is full and red falls with the hue. */
  lemma Hsv2RgbYellowToGreen(h: real)
    requires 60.0 <= h < 120.0
    ensures Hsv2Rgb(h, 1.0, 1.0) == Rgb(Channel(1.0 - (h / 60.0 - 1.0)), 255, 0)
  {
    var f := h / 60.0 - 1.0;
    assert (h / 60.0).Floor == 1;
    assert SectorFraction(h) == f;
    assert SectorIntensities(h, 1.0, 1.0) == (1.0 - f, 1.0, 0.0);
  }

  /** The hue of row y of the gradient strip: float(y) / LINE_HEIGHT * 120. */
  function GradientHue(y: nat): (hue: real)
    requires y < LINE_HEIGHT
    ensures 0.0 <= hue < 120.0
  {
    y as real / LINE_HEIGHT as real * 120.0
  }

  /** The colour of row y of the strip. */
  function GradientColor(y: nat): (c: Rgb)
    requires y < LINE_HEIGHT
    ensures y == 0 ==> c == Rgb(255, 0, 0)
  {
    var hue := GradientHue(y);
    if y == 0 then
      Hsv2RgbRedToYellow(0.0);
      assert hue == 0.0 && Channel(0.0) == 0;
      Hsv2Rgb(hue, 1.0, 1.0)
    else
      Hsv2Rgb(hue, 1.0, 1.0)
  }

  /**
   * The strip runs from red at the top through yellow to green at the bottom:
   * every row is a colour with no blue, rows above the middle have full red and
   * the rest full green.
   */
  lemma GradientRows(y: nat)
    requires y < LINE_HEIGHT
    ensures IsColor(GradientColor(y)) && GradientColor(y).b == 0
    ensures y < LINE_HEIGHT / 2 ==> GradientColor(y).r == 255
    ensures y >= LINE_HEIGHT / 2 ==> GradientColor(y).g == 255
  {
    var hue := GradientHue(y);
    Hsv2RgbIsColor(hue, 1.0, 1.0);
    if y < LINE_HEIGHT / 2 {
      assert hue < 60.0;
      Hsv2RgbRedToYellow(hue);
    } else {
      assert hue >= 60.0;
      Hsv2RgbYellowToGreen(hue);
    }
  }

  /** The loop that paints the 1 x LINE_HEIGHT strip, one point per row. */
  method DrawGradient() returns (line: array<Rgb>)
    ensures fresh(line) && line.Length == LINE_HEIGHT
    ensures forall y :: 0 <= y < LINE_HEIGHT ==> line[y] == GradientColor(y)
  {
    line := new Rgb[LINE_HEIGHT](_ => Rgb(0, 0, 0));
    var y := 0;
    while y < LINE_HEIGHT
      invariant 0 <= y <= LINE_HEIGHT
      invariant forall k :: 0 <= k < y ==> line[k] == GradientColor(k)
    {
      line[y] := Hsv2Rgb(y as real / LINE_HEIGHT as real * 120.0, 1.0, 1.0);
      y := y + 1;
    }
  }

  /** N = int(RATE / FPS): the samples one video frame covers. */
  function WindowLen(): (n: nat)
    ensures n == 1764
  {
    Trunc(RATE as real / FPS)
  }

  /** samples / MAX_Y: the left channel scaled into floats. */
  function Normalise(samples: seq<int>): (ys: seq<real>)
    ensures |ys| == |samples|
    ensures forall k :: 0 <= k < |samples| ==> ys[k] == samples[k] as real / MAX_Y
  {
    seq(|samples|, k requires 0 <= k < |samples| => samples[k] as real / MAX_Y)
  }

  /** 16-bit samples scale into [-1, 1). */
  lemma NormalisedInUnit(samples: seq<int>, k: nat)
    requires k < |samples| && -0x8000 <= samples[k] < 0x8000
    ensures -1.0 <= Normalise(samples)[k] < 1.0
  {
  }

  /** frames = int(n_samples / N): Python 2 integer division, whole windows only. */
  function FrameCount(n: nat): (k: nat)
    ensures k * WindowLen() <= n < (k + 1) * WindowLen()
  {
    n / WindowLen()
  }

  /** The windows build_fft hands to np.fft.fft: samples[frame*N:(frame+1)*N] for each whole frame. */
  function Windows(ys: seq<real>): (ws: seq<seq<real>>)
    ensures |ws| == FrameCount(|ys|)
    ensures forall k :: 0 <= k < |ws| ==> |ws[k]| == WindowLen()
  {
    var n := WindowLen();
    var frames := FrameCount(|ys|);
    seq(frames, k requires 0 <= k < frames =>
      assert (k + 1) * n <= frames * n <= |ys| by { FramesFit(|ys|, k, frames); }
      ys[k * n .. (k + 1) * n])
  }

  lemma FramesFit(len: nat, k: nat, frames: nat)
    requires frames == FrameCount(len) && k < frames
    ensures (k + 1) * WindowLen() <= frames * WindowLen() <= len
  {
    var n := WindowLen();
    assert frames * n <= len;
    assert (frames - (k + 1)) * n >= 0;
  }

  function Concat(ws: seq<seq<real>>): seq<real>
  {
    if ws == [] then [] else Concat(ws[..|ws| - 1]) + ws[|ws| - 1]
  }

  /**
   * The windows are adjacent, disjoint and in order: laid end to end they are
   * exactly the first frames * N samples; the tail shorter than N is dropped.
   */
  lemma {:induction false} WindowsPartitionPrefix(ys: seq<real>, m: nat)
    requires m <= FrameCount(|ys|)
    ensures m * WindowLen() <= |ys|
    ensures Concat(Windows(ys)[..m]) == ys[..m * WindowLen()]
  {
    var n := WindowLen();
    if m == 0 {
      assert Windows(ys)[..0] == [];
    } else {
      FramesFit(|ys|, m - 1, FrameCount(|ys|));
      WindowsPartitionPrefix(ys, m - 1);
      var ws := Windows(ys)[..m];
      assert ws[..m - 1] == Windows(ys)[..m - 1];
      assert ws[m - 1] == ys[(m - 1) * n .. m * n];
      assert ys[..m * n] == ys[..(m - 1) * n] + ys[(m - 1) * n .. m * n];
    }
  }

  lemma WindowsPartition(ys: seq<real>)
    ensures Concat(Windows(ys)) == ys[..FrameCount(|ys|) * WindowLen()]
    ensures |ys| - FrameCount(|ys|) * WindowLen() < WindowLen()
  {
    var ws := Windows(ys);
    WindowsPartitionPrefix(ys, |ws|);
    assert ws[..|ws|] == ws;
  }

  /**
   * np.fft.fft(window, nFFT) with a window of N = 1764 > nFFT samples crops
   * it: only the first nFFT samples of every window reach the transform.
   */
  function TransformInput(window: seq<real>): (x: seq<real>)
    requires |window| == WindowLen()
    ensures |x| == NFFT && x == window[..NFFT]
  {
    window[..NFFT]
  }

  /** The frames build_fft yields, with the transform as a parameter. */
  function BuildFft(samples: seq<int>, fft: seq<real> -> seq<Complex>): (frames: seq<seq<Complex>>)
    ensures |frames| == FrameCount(|samples|)
    ensures forall k :: 0 <= k < |frames| ==>
      frames[k] == fft(Normalise(samples)[k * WindowLen() .. k * WindowLen() + NFFT])
  {
    var ys := Normalise(samples);
    var ws := Windows(ys);
    var n := WindowLen();
    assert forall k :: 0 <= k < |ws| ==> TransformInput(ws[k]) == ys[k * n .. k * n + NFFT] by {
      forall k | 0 <= k < |ws|
        ensures TransformInput(ws[k]) == ys[k * n .. k * n + NFFT]
      {
        FramesFit(|ys|, k, |ws|);
      }
    }
    seq(|ws|, k requires 0 <= k < |ws| => fft(TransformInput(ws[k])))
  }

  /** y = min(LINE_HEIGHT, y) and the int(y) both boxes use. */
  function ColumnHeight(y: real): (h: int)
    ensures y >= 0.0 ==> 0 <= h <= LINE_HEIGHT
    ensures 0.0 <= y <= LINE_HEIGHT as real ==> h as real <= y < h as real + 1.0
  {
    Trunc(Min(LINE_HEIGHT as real, y))
  }

  /** A PIL box: left, upper, right, lower, the right and lower edges excluded. */
  datatype Box = Box(left: int, upper: int, right: int, lower: int)
  {
    function Width(): int { right - left }
    function Height(): int { lower - upper }

    predicate Inside(w: nat, h: nat) {
      0 <= left <= right <= w && 0 <= upper <= lower <= h
    }
  }

  /** from_box: the bottom h rows of the strip. */
  function FromBox(h: int): (b: Box)
    ensures 0 <= h <= LINE_HEIGHT ==> b.Inside(1, LINE_HEIGHT)
    ensures b.Width() == 1 && b.Height() == h && b.lower == LINE_HEIGHT
  {
    Box(0, LINE_HEIGHT - h, 1, LINE_HEIGHT)
  }

  /** to_box: column x, ending nFFT - x rows above the bottom edge of the picture. */
  function ToBox(x: int, h: int, height: int): (b: Box)
    ensures b.Width() == 1 && b.Height() == h
    ensures b.lower == height - NFFT + x
  {
    Box(x, height - h - (NFFT - x), x + 1, height - (NFFT - x))
  }

  /** One im.paste(line.crop(from_box), to_box). */
  datatype Paste = Paste(from: Box, to: Box)

  /** The paste made for bin x whose pre-clamp height is y. */
  function ColumnPaste(x: int, y: real): (p: Paste)
    ensures p.to.left == x && p.from.lower == LINE_HEIGHT
  {
    var h := ColumnHeight(y);
    Paste(FromBox(h), ToBox(x, h, IMAGE_HEIGHT))
  }

  /**
   * For every bin and every non-negative height both boxes lie inside their
   * images and have the same 1 x int(y) size, the column of bin x ends on row
   * 464 + x, so the baselines climb a diagonal, and no column reaches above row 284.
   */
  lemma ColumnPasteFits(x: nat, y: real)
    requires x < NFFT && y >= 0.0
    ensures var p := ColumnPaste(x, y);
      && p.from.Inside(1, LINE_HEIGHT)
      && p.to.Inside(IMAGE_WIDTH, IMAGE_HEIGHT)
      && p.from.Width() == p.to.Width() == 1
      && p.from.Height() == p.to.Height() == ColumnHeight(y)
      && p.to.lower == IMAGE_HEIGHT - NFFT + x
      && p.to.upper >= IMAGE_HEIGHT - NFFT - LINE_HEIGHT
  {
  }

  /**
   * Row r of a pasted column shows strip row r - to.upper + from.upper; the
   * lowest pixel of every non-empty column is the last row of the strip.
   */
  lemma PasteRows(x: nat, y: real, r: int)
    requires x < NFFT && y >= 0.0
    requires var p := ColumnPaste(x, y); p.to.upper <= r < p.to.lower
    ensures var p := ColumnPaste(x, y);
      && 0 <= r - p.to.upper + p.from.upper < LINE_HEIGHT
      && (r == p.to.lower - 1 ==> r - p.to.upper + p.from.upper == LINE_HEIGHT - 1)
  {
  }

  /** The inner loop of one frame: a paste per bin, in bin order. */
  method FramePastes(heights: seq<real>) returns (pastes: seq<Paste>)
    requires forall x :: 0 <= x < |heights| ==> heights[x] >= 0.0
    ensures |pastes| == |heights|
    ensures forall x :: 0 <= x < |heights| ==> pastes[x] == ColumnPaste(x, heights[x])
  {
    pastes := [];
    var x := 0;
    while x < |heights|
      invariant 0 <= x <= |heights| && |pastes| == x
      invariant forall k :: 0 <= k < x ==> pastes[k] == ColumnPaste(k, heights[k])
    {
      var y := Min(LINE_HEIGHT as real, heights[x]);
      var fromBox := Box(0, LINE_HEIGHT - Trunc(y), 1, LINE_HEIGHT);
      var toBox := Box(x, IMAGE_HEIGHT - Trunc(y) - (NFFT - x), x + 1, IMAGE_HEIGHT - (NFFT - x));
      var paste := Paste(fromBox, toBox);
      assert paste == ColumnPaste(x, heights[x]) by {
        assert Trunc(y) == ColumnHeight(heights[x]);
      }
      pastes := pastes + [paste];
      x := x + 1;
    }
  }

  /** The columns of different bins never share a pixel. */
  lemma PastesDisjoint(x: nat, y: real, z: nat, w: real)
    requires x < z < NFFT
    ensures ColumnPaste(x, y).to.right <= ColumnPaste(z, w).to.left
  {
  }
}
