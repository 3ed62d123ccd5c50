# songscape frame pipeline, modelled in Dafny

songscape turns a PCM waveform into a picture of its spectrum, one picture per
video frame. It either streams the pictures to a video encoder or draws them
live while the audio plays. This project models the frame-generation core of
five programs of the repository:

- `rgplot_fast/basics.go`: the offline renderer. For every frame it slices a
  window of the wave data, decodes the left channel into the FFT buffer,
  transforms it and plots one white pixel per column into a BGRA buffer. The
  buffer is then written to the encoder. Modelled in `offline.dfy` as the
  class `Pump`, with its buffers as arrays and the encoder input as a
  sequence of frames.
- `rgplot_fast/rgl3.go`: the live renderer that follows the mixer's
  post-mix chunks. It aligns the time since the chunk arrived to a whole
  sample frame, transforms the window when it fits and draws centred log
  bars. Modelled in `live_chunked.dfy` (class `View`).
- `rgplot_fast/rgl2.go`: the earlier live renderer. It indexes the whole file
  by the clock with no alignment and no bounds check. Modelled in
  `live_direct.dfy` (class `View`).
- `rgplot/rgplot.py`: the Python prototype. It windows the samples, converts
  HSV to RGB for a gradient strip and pastes strip columns into the picture.
  Modelled in `rgplot.dfy`.
- `spectrum/spectrum.py`: the matplotlib prototype. It reads the file up to
  each frame's time in whole blocks of nFFT frames, deinterleaves the two
  channels and stitches two half-spectra. Modelled in `spectrum.dfy`.

The shared pieces are:
- `numeric.dfy`: truncation and powers of two.
- `samples.dfy`: little-endian int16 `Sample` decoding, including the
  failed `binary.Read` that leaves `sample` unchanged.
- `bars.dfy`: the centred bar chart both live renderers draw.
- `analysis.dfy`: the wave header fields, the FFT buffer and the `sample`
  variable of the live renderers.

The FFT is a parameter of the model (a length-preserving function on
sequences of complex numbers), and so are the log curve and the square root
that shape bar heights. The model keeps the source's quirks as written:
- `frame*SPF` is used as a byte offset.
- Each frame of basics.go transforms stale FFT output past the first N
  entries.
- rgl2.go reads from an unaligned offset and panics when the slice ends past
  the end of the data (its capacity taken to equal its length).
- rgplot.py crops every 1764-sample window to its first 256 samples.
- spectrum.py plots each left-channel bin one bin width away from its own
  frequency.

Two behaviours of the code are easy to misread:
- In basics.go, a bin whose real part is strongly negative does not leave its
  column blank. `HEIGHT - 40*re` then exceeds the last row, is clamped to it
  and lights the bottom pixel. Only bins above 12 leave their column dark
  (`Offline.NonPositiveBinLightsBottomRow`, `Offline.LargeBinSkipsColumn`).
- In rgl3.go, a tick whose window does not fit the chunk does not keep the
  previous picture. The screen has already been cleared, and the swap then
  presents an empty picture (`ChunkedLive.View.Render`: `drawn == []` and
  `shown` grows by it). rgl2.go has no fit check at all.

## Model

| member | source | states |
|---|---|---|
| Numeric.Trunc | songscape/rgplot/rgplot.py:48 | Python's int() of a float truncates toward zero: the result is the floor for non-negative values and the ceiling for negative ones |
| Samples.Int16LE | songscape/rgplot_fast/basics.go:15-17 | the L field of a little-endian Sample is a signed 16-bit value whose two's-complement encoding is exactly the two bytes read |
| Samples.EncodeInt16LE | songscape/rgplot_fast/basics.go:15-17 | the high byte of the encoding has its top bit set exactly for negative values |
| Samples.Int16RoundTrip | songscape/rgplot_fast/basics.go:104 | encoding a 16-bit value and decoding it gives the value back |
| Samples.LeftAt | songscape/rgplot_fast/basics.go:104-105 | the L of the Sample at a byte offset is a 16-bit value decoded from that offset's first two bytes |
| Samples.ReadLeft | songscape/rgplot_fast/rgl2.go:132-136 | the i-th binary.Read from a buffer over the window yields frame i while whole frames remain; after that `sample` keeps the last whole frame, or its earlier value when the window holds none |
| Samples.FullReads | songscape/rgplot_fast/rgl2.go:132-136 | when the window holds count whole 4-byte frames, each of the first count reads sees its own frame |
| Samples.DecodeLefts | songscape/rgplot_fast/rgl3.go:157-160 | the decoded FFT input has one entry per read; entry k is the k-th read's L over max_y, with zero imaginary part |
| Samples.HalfUnitRange | songscape/rgplot_fast/rgl3.go:94 | with max_y = 2^16, every decoded 16-bit value lies in [-1/2, 1/2) |
| Offline.Wave.SampleCount | songscape/rgplot_fast/basics.go:65 | SAMPLES whole sample frames fit in the data |
| Offline.Wave.Spf | songscape/rgplot_fast/basics.go:69 | SPF = SampleRate / FPS is at least one for a renderable wave |
| Offline.Wave.WindowLen | songscape/rgplot_fast/basics.go:71-77 | N is the smaller of NFFT and SPF |
| Offline.Wave.MaxY | songscape/rgplot_fast/basics.go:79 | max_y = (1 << bits) - 1 in uint32 arithmetic is at least 1; shifts of 32 or more wrap to 2^32 - 1 |
| Offline.Wave.FrameCount | songscape/rgplot_fast/basics.go:94 | SAMPLES / SPF frames of SPF samples each stay within SAMPLES |
| Offline.Wave.WindowStart | songscape/rgplot_fast/basics.go:99 | frame * SPF, a sample index used as a byte offset, is for every frame the loop runs at least SPF samples before SAMPLES |
| Offline.Wave.WindowFits | songscape/rgplot_fast/basics.go:101 | data shorter than 4N bytes fits no frame's slice |
| Offline.Wave.Normalised | songscape/rgplot_fast/basics.go:104-105 | the x-th window value is the x-th 4-byte Sample's L over max_y; its bound for 16-bit data is SixteenBitNormalisedInOpenUnit |
| Offline.SixteenBitNormalisedInOpenUnit | songscape/rgplot_fast/basics.go:79-105 | for 16-bit data every window value L / max_y lies strictly inside (-1, 1) |
| Offline.StereoWindowsFit | songscape/rgplot_fast/basics.go:65-101 | for 16-bit stereo data the byte slice of every frame the loop runs lies inside the data, so it never panics |
| Offline.CopyGroup | songscape/rgplot_fast/basics.go:21 | copy(buf[i:i+4], col) sets the first min(4, len(col)) bytes of the group and changes nothing else |
| Offline.FillColor | songscape/rgplot_fast/basics.go:19-23 | fill_color stores col in every 4-byte group of the buffer |
| Offline.PlotRow | songscape/rgplot_fast/basics.go:110-119 | the column is skipped exactly when HEIGHT - 40*re is negative; otherwise the row is below HEIGHT, is the last row when the value is beyond it, and is the value truncated otherwise |
| Offline.NonPositiveBinLightsBottomRow | songscape/rgplot_fast/basics.go:110-119 | a zero or negative bin lights the bottom row |
| Offline.LargeBinSkipsColumn | songscape/rgplot_fast/basics.go:110-115 | a bin above 12 leaves its column dark, and 12 itself lights the top row |
| Offline.PixelOffset | songscape/rgplot_fast/basics.go:120 | buf_offset is 4-aligned, in bounds, and its four bytes belong to pixel (x, y) |
| Offline.ByteOfPixel | songscape/rgplot_fast/basics.go:120 | every buffer index splits into row, column and byte-in-pixel as buf_offset composes them |
| Offline.FrameImage | songscape/rgplot_fast/basics.go:97-122 | the emitted buffer has WIDTH*HEIGHT*4 bytes, each white where its pixel is plotted and background elsewhere |
| Offline.ImageColumnStep | songscape/rgplot_fast/basics.go:113-121 | plotting column x changes exactly the four bytes of the pixel PlotRow picks, or nothing when the column is skipped |
| Offline.AtMostOnePixelPerColumn | songscape/rgplot_fast/basics.go:109-122 | a frame lights at most one pixel per column, and only in columns below N |
| Offline.PlottedPixelIsLit | songscape/rgplot_fast/basics.go:119-121 | each column that is not skipped has its pixel lit |
| Offline.ZeroSpectrumLightsBottomRow | songscape/rgplot_fast/basics.go:110-121 | an all-zero spectrum lights exactly the bottom pixel of every plotted column |
| Offline.Zeros | songscape/rgplot_fast/basics.go:85 | fftw.Alloc1d gives NFFT zero entries |
| Offline.FftInput | songscape/rgplot_fast/basics.go:101-107 | before the transform the first N entries hold the frame's window and the rest keep the previous transform's output |
| Offline.SpectrumAfter | songscape/rgplot_fast/basics.go:85-108 | the FFT buffer after any number of frames still has NFFT entries |
| Offline.FrameOf | songscape/rgplot_fast/basics.go:94-122 | the buffer written for a frame is a whole BGRA picture |
| Offline.Pump.constructor | songscape/rgplot_fast/basics.go:84-86 | the pixel buffer and FFT buffer are fresh, the FFT buffer zeroed, nothing written yet |
| Offline.Pump.PlotColumns | songscape/rgplot_fast/basics.go:109-122 | the column loop over a background buffer leaves exactly the frame picture of the N transformed bins |
| Offline.Pump.RenderFrame | songscape/rgplot_fast/basics.go:97-122 | one frame succeeds exactly when its slice fits; it then transforms the decoded window over the stale tail and plots the first N bins |
| Offline.Pump.Run | songscape/rgplot_fast/basics.go:94-143 | the loop writes frames 0, 1, ... in order, each equal to FrameOf; it ends Done after SAMPLES/SPF frames or Panic at the first frame whose slice does not fit |
| Offline.StereoRunEmitsEveryFrame | songscape/rgplot_fast/basics.go:94-101 | with 16-bit stereo data the run cannot panic and emits every frame |
| Bars.Remap | songscape/rgplot_fast/rgl3.go:165 | (i + n/2) % n is a bin index below n |
| Bars.RemapIsPermutation | songscape/rgplot_fast/rgl3.go:164-165 | the remap has an inverse on both sides, so every bin is drawn exactly once |
| Bars.RemapInjective | songscape/rgplot_fast/rgl3.go:164-165 | distinct bars draw distinct bins |
| Bars.ClampHeight | songscape/rgplot_fast/rgl3.go:166-168 | heights above 2 become 2 and all others are kept; there is no lower clamp |
| Bars.BarAt | songscape/rgplot_fast/rgl3.go:170-171 | each bar is 2/n wide, n of them spanning the viewport, and rises h from the bottom edge |
| Bars.BarEdges | songscape/rgplot_fast/rgl3.go:128-171 | bar i spans (2i-1)/n - 1 to (2i+1)/n - 1, rises from the bottom edge and never above the top |
| Bars.BarsTouch | songscape/rgplot_fast/rgl3.go:128-171 | consecutive bars share an edge |
| Bars.BarsDisjoint | songscape/rgplot_fast/rgl3.go:128-171 | an earlier bar ends where or before a later one begins |
| Bars.BarChart | songscape/rgplot_fast/rgl3.go:163-172 | one tick draws n rectangles, bar i for bin Remap(i) at its clamped height |
| Analysis.Format.MaxY | songscape/rgplot_fast/rgl3.go:94 | max_y = 1 << bits, the same in rgl2.go, is at least 1 |
| Analysis.Analyser.constructor | songscape/rgplot_fast/rgl3.go:100 | the FFT buffer is fresh and zeroed, and `sample` starts at zero |
| Analysis.Analyser.Decode | songscape/rgplot_fast/rgl3.go:156-160 | the read loop leaves DecodeLefts of the window in fft_data and the last read value in `sample` |
| Analysis.Analyser.Transform | songscape/rgplot_fast/rgl3.go:161 | Execute replaces fft_data by its transform in place |
| ChunkedLive.AlignDown | songscape/rgplot_fast/rgl3.go:152-153 | the aligned offset is a multiple of bpsa, at most the raw offset and less than bpsa below it |
| ChunkedLive.ElapsedBytes | songscape/rgplot_fast/rgl3.go:151 | uint32((time - chunk_time) * bpse) is the floor of the bytes played since the chunk arrived |
| ChunkedLive.TickOffset | songscape/rgplot_fast/rgl3.go:151-153 | the aligned offset is a multiple of bpsa and at most one sample frame before the bytes played |
| ChunkedLive.WindowFits | songscape/rgplot_fast/rgl3.go:155 | a chunk of at most NFFT*bpsa bytes never passes the fit check, whatever the offset |
| ChunkedLive.FittingWindowInChunk | songscape/rgplot_fast/rgl3.go:155-156 | a window that passes the strict fit check lies inside the chunk with a byte to spare |
| ChunkedLive.Window | songscape/rgplot_fast/rgl3.go:156 | the decoded slice is NFFT*bpsa bytes long |
| ChunkedLive.View.constructor | songscape/rgplot_fast/rgl3.go:100-125 | no chunk yet, chunk time 0, nothing drawn or shown |
| ChunkedLive.View.DrawBars | songscape/rgplot_fast/rgl3.go:163-172 | the bar loop draws BarChart of fft_data under the log curve |
| ChunkedLive.View.Poll | songscape/rgplot_fast/rgl3.go:131-136 | a waiting chunk replaces the current one and stamps its time; otherwise both stay |
| ChunkedLive.View.Render | songscape/rgplot_fast/rgl3.go:138-174 | when the aligned window fits, fft_data becomes the transform of the decoded window and the bars are drawn; otherwise nothing changes and an empty picture is drawn; either way one picture is swapped in |
| ChunkedLive.View.Tick | songscape/rgplot_fast/rgl3.go:130-175 | a pass is the poll followed by the render, both as above |
| ChunkedLive.SixteenBitTickValues | songscape/rgplot_fast/rgl3.go:94-159 | for 16-bit data every value fed to the transform lies in [-1/2, 1/2) |
| DirectLive.TimeOffset | songscape/rgplot_fast/rgl2.go:130 | uint32(time * bpse) is the floor of the bytes played |
| DirectLive.SliceInRange | songscape/rgplot_fast/rgl2.go:132 | when the data is shorter than one window, every slice is out of range |
| DirectLive.OffsetNotAligned | songscape/rgplot_fast/rgl2.go:93-130 | for 44100 Hz 16-bit stereo the offset can fall inside a sample frame: one byte in at time 1/176400 |
| DirectLive.StereoReadsConsumeSlice | songscape/rgplot_fast/rgl2.go:132-136 | with 4-byte frames the NFFT reads consume the WIDTH*bpsa-byte slice exactly, each reading its own frame |
| DirectLive.LinearHeight | songscape/rgplot_fast/rgl2.go:149-152 | a bar reaches full height exactly when its bin's real part is at least 20 |
| DirectLive.View.constructor | songscape/rgplot_fast/rgl2.go:92-97 | the FFT buffer is fresh and zeroed, nothing drawn or shown |
| DirectLive.View.DrawBars | songscape/rgplot_fast/rgl2.go:147-156 | the bar loop draws BarChart of fft_data with height real/10 |
| DirectLive.View.Tick | songscape/rgplot_fast/rgl2.go:120-163 | a negative time skips the pass with nothing changed; a slice past the data panics; otherwise the window is decoded and transformed, the bars drawn and one picture swapped in |
| RgPlot.Mix | songscape/rgplot/rgplot.py:26-28 | one channel of interpolate, int(start + (end - start) * i), is the start value at i = 0 and the end value at i = 1 |
| RgPlot.Interpolate | songscape/rgplot/rgplot.py:24-29 | interpolate(0, start, end) is start and interpolate(1, start, end) is end |
| RgPlot.MixBetween | songscape/rgplot/rgplot.py:26-28 | each interpolated channel lies between the two ends for i in [0, 1] |
| RgPlot.InterpolateIsColor | songscape/rgplot/rgplot.py:24-29 | interpolating between two colours gives a colour |
| RgPlot.Sector | songscape/rgplot/rgplot.py:34-36 | the sector hi is always in 0..5 |
| RgPlot.SectorFraction | songscape/rgplot/rgplot.py:34-37 | f lies in [0, 1) |
| RgPlot.Channel | songscape/rgplot/rgplot.py:48 | int(x * 255) of a unit intensity is in 0..255 |
| RgPlot.ScaledComplement | songscape/rgplot/rgplot.py:38-40 | p, q and t stay in [0, 1] for s, v and f in [0, 1] |
| RgPlot.SectorIntensitiesInUnit | songscape/rgplot/rgplot.py:37-47 | whatever the sector, the three intensities picked lie in [0, 1] |
| RgPlot.SectorIntensities | songscape/rgplot/rgplot.py:37-47 | whatever the sector, one of the three intensities picked is v and one is p = v (1 - s) |
| RgPlot.Hsv2Rgb | songscape/rgplot/rgplot.py:30-49 | one channel of the colour is int(255 v) and one is int(255 v (1 - s)): the value and the floor of the colour |
| RgPlot.Hsv2RgbGrey | songscape/rgplot/rgplot.py:37-48 | with no saturation every hue gives the grey (int(255 v), int(255 v), int(255 v)) |
| RgPlot.Hsv2RgbIsColor | songscape/rgplot/rgplot.py:30-49 | for s and v in [0, 1] every channel of hsv2rgb is in 0..255 |
| RgPlot.Hsv2RgbRedToYellow | songscape/rgplot/rgplot.py:42-48 | with s = v = 1 and h in [0, 60) the colour is (255, int(255 h/60), 0) |
| RgPlot.Hsv2RgbYellowToGreen | songscape/rgplot/rgplot.py:43-48 | with s = v = 1 and h in [60, 120) the colour is (int(255 (1 - f)), 255, 0) |
| RgPlot.GradientHue | songscape/rgplot/rgplot.py:86-87 | the hue of every strip row lies in [0, 120) |
| RgPlot.GradientColor | songscape/rgplot/rgplot.py:86-87 | the top row of the strip is pure red, LINE_START |
| RgPlot.GradientRows | songscape/rgplot/rgplot.py:84-87 | every strip row is a colour with no blue, full red in the upper half and full green in the lower half |
| RgPlot.DrawGradient | songscape/rgplot/rgplot.py:84-87 | the loop paints row y of a fresh 1 x 180 strip with GradientColor(y) |
| RgPlot.WindowLen | songscape/rgplot/rgplot.py:54 | N = int(RATE / FPS) = 1764 |
| RgPlot.Normalise | songscape/rgplot/rgplot.py:52 | every sample is divided by MAX_Y = 2^15 |
| RgPlot.NormalisedInUnit | songscape/rgplot/rgplot.py:16-52 | 16-bit samples scale into [-1, 1) |
| RgPlot.FrameCount | songscape/rgplot/rgplot.py:55 | frames = int(n_samples / N) is the number of whole windows: frames * N <= n_samples < (frames + 1) * N |
| RgPlot.Windows | songscape/rgplot/rgplot.py:55-59 | build_fft makes int(n/N) windows of N samples each |
| RgPlot.FramesFit | songscape/rgplot/rgplot.py:55-59 | the end of every window lies inside the samples |
| RgPlot.WindowsPartitionPrefix | songscape/rgplot/rgplot.py:55-59 | the first m windows laid end to end are exactly the first m*N samples |
| RgPlot.WindowsPartition | songscape/rgplot/rgplot.py:55-59 | the windows are adjacent, disjoint and in order, cover the first frames*N samples, and drop a tail shorter than N |
| RgPlot.TransformInput | songscape/rgplot/rgplot.py:59 | np.fft.fft(window, nFFT) sees only the first 256 samples of the 1764-sample window |
| RgPlot.BuildFft | songscape/rgplot/rgplot.py:51-59 | build_fft yields one transform per whole window, of samples[k*N : k*N + nFFT] / MAX_Y |
| RgPlot.ColumnHeight | songscape/rgplot/rgplot.py:104-109 | the clamped, truncated height is in 0..180 and is the floor of the height when it is not clamped |
| RgPlot.FromBox | songscape/rgplot/rgplot.py:109 | from_box is the bottom int(y) rows of the 1-pixel strip, inside the strip for heights 0..180 |
| RgPlot.ToBox | songscape/rgplot/rgplot.py:112 | to_box is one column wide, int(y) rows high, and ends nFFT - x rows above the bottom of the picture |
| RgPlot.ColumnPaste | songscape/rgplot/rgplot.py:109-112 | the paste for bin x lands in picture column x and is cut from the bottom of the strip |
| RgPlot.ColumnPasteFits | songscape/rgplot/rgplot.py:84-112 | both boxes lie inside their images and have the same 1 x int(y) size; column x ends on row 464 + x and never reaches above row 284 |
| RgPlot.PasteRows | songscape/rgplot/rgplot.py:109-115 | each pasted row comes from a strip row, and the lowest pixel of a column is the last strip row |
| RgPlot.FramePastes | songscape/rgplot/rgplot.py:102-115 | the bin loop makes one paste per bin, in bin order, each ColumnPaste of its height |
| RgPlot.PastesDisjoint | songscape/rgplot/rgplot.py:112 | the columns of different bins never overlap |
| Spectrum.FrameTarget | songscape/spectrum/spectrum.py:30 | int((i + 1) * RATE / FPS) is 1764 (i + 1) |
| Spectrum.ReadCount | songscape/spectrum/spectrum.py:30-33 | the read count is a multiple of nFFT; from a cursor not past the target it is non-negative and stops less than nFFT short of the target; past the target it is negative |
| Spectrum.FramesRead | songscape/spectrum/spectrum.py:35 | readframes reads the rest of the file for a negative count and at most the frames left otherwise |
| Spectrum.Step | songscape/spectrum/spectrum.py:30-35 | animate never moves the cursor past the end of the file |
| Spectrum.CursorAfter | songscape/spectrum/spectrum.py:30-35 | the cursor after any number of frames lies within the file |
| Spectrum.CursorTracksFrames | songscape/spectrum/spectrum.py:30-35 | the cursor never runs ahead of frame time, and while the file lasts it lags the frame's target by less than nFFT frames |
| Spectrum.Unpack | songscape/spectrum/spectrum.py:40 | the unpacked values are the little-endian int16 pairs of the data, each over MAX_y |
| Spectrum.UnpackInUnit | songscape/spectrum/spectrum.py:40 | every unpacked value lies in [-1, 1) |
| Spectrum.Evens | songscape/spectrum/spectrum.py:41 | y[::2] has ceil(n/2) entries, entry k being y[2k] |
| Spectrum.Odds | songscape/spectrum/spectrum.py:42 | y[1::2] has floor(n/2) entries, entry k being y[2k + 1] |
| Spectrum.DeinterleaveRoundTrip | songscape/spectrum/spectrum.py:40-42 | for an even count both halves have equal length and interleave back to the unpacked data |
| Spectrum.Channels | songscape/spectrum/spectrum.py:40-42 | y_L and y_R have one entry per sample frame read, entry k being frame k's L and R over MAX_y |
| Spectrum.Stitch | songscape/spectrum/spectrum.py:48 | the stitched line has nFFT - 1 points |
| Spectrum.StitchLayout | songscape/spectrum/spectrum.py:47-48 | the line holds left bins nFFT/2 .. nFFT-2 and then right bins 0 .. nFFT/2-1, with the right DC bin at nFFT/2 - 1 |
| Spectrum.Zeros | songscape/spectrum/spectrum.py:57 | the clear frame is nFFT - 1 zeros |
| Spectrum.AxisAt | songscape/spectrum/spectrum.py:80 | x_f is negative below position nFFT/2 - 1, zero there and positive above |
| Spectrum.Axis | songscape/spectrum/spectrum.py:80 | x_f has nFFT - 1 points, point j being (j - 255) * RATE / nFFT |
| Spectrum.AxisShape | songscape/spectrum/spectrum.py:57-85 | the axis, the clear frame and every stitched line have the same length; the axis rises strictly, is symmetric about 0 and is 0 at the DC position |
| Spectrum.StitchAgainstAxis | songscape/spectrum/spectrum.py:48-80 | right bins are plotted at their own frequencies; every left bin is plotted one bin width above its own |
| Spectrum.AnimationFrames | songscape/spectrum/spectrum.py:100-102 | the animation's frame count is (frames // 44100) * 25: only whole seconds count |
| Spectrum.OpenWave | songscape/spectrum/spectrum.py:97-102 | an accepted file animates a multiple of 25 frames, never more than the audio lasts at 25 frames per second |
| Spectrum.OpenWaveAccepts | songscape/spectrum/spectrum.py:97-102 | the file is accepted exactly when it is stereo, 2-byte and 44100 Hz, and then a whole second gives 25 frames |
| Spectrum.Animation.constructor | songscape/spectrum/spectrum.py:85-96 | the cursor starts at 0 and the line at nFFT - 1 zeros |
| Spectrum.Animation.Init | songscape/spectrum/spectrum.py:54-58 | init draws the clear frame |
| Spectrum.Animation.Animate | songscape/spectrum/spectrum.py:29-51 | the cursor moves by Step; a zero read count leaves the line alone; otherwise the line becomes the stitched spectra of the frames just read |

## Left out

- The FFT (fftw's `Execute`, `np.fft.fft` with its magnitude): a foreign numerical library. It is a parameter, length preserving in the Go programs and giving nFFT points in spectrum.py.
- `math.Log` in rgl3.go and `math.sqrt` in rgplot.py: a parameter (`LogCurve`) and an input (the heights given to `RgPlot.FramePastes`). Only the clamps that follow them are modelled.
- ffmpeg processes, pipes, `io.Copy`, `os.system` and `unlink`: process I/O. The encoder's input is the sequence of written frames.
- Reading the wave file (`wav.ReadWavData`, `wavfile.read`, `wave.open`): the data is a byte or sample sequence and the header a datatype.
- GLFW, OpenGL, gltext, `draw_string`, `initGL`, `onKey` and `onResize`: windowing and drawing APIs. Bars are the rectangles passed to `gl.Rectf`, and a swap appends the drawn rectangles to `shown`.
- The early return when `draw_string` fails, in rgl2.go and rgl3.go: a font-library failure outside this model.
- The fps smoothing in both live renderers: it only feeds the fps text.
- PIL's `ImageChops.offset` scroll, the clearing rectangles, `paste` into the picture and `save` in rgplot.py: the picture is not modelled; the paste boxes are.
- matplotlib figure, axes and animation scheduling in spectrum.py: `Animate` takes the frame index, and the line is its y data.
- The SDL mixer, its post-mix callback goroutine and the channel in rgl3.go: concurrency. `ChunkedLive.View.Poll` models one non-blocking receive, given what the channel held.
- Progress printing in basics.go and rgplot.py.
- float32 and float64 rounding and NaN: real arithmetic throughout. The clock, bytes per second and bin values are reals.
- `struct.unpack` uses the host byte order; the model takes a little-endian host.
- The writes to the encoder and their failure panic in basics.go: `Offline.Pump.Run` models the writes as always succeeding.
- Offline.Wave.Renderable: excludes headers for which basics.go divides by zero (fewer than 8 bits, no channels, or a sample rate below FPS) and sizes that would wrap the uint32 offsets.
- ChunkedLive.View.Render: requires the elapsed byte count plus the window to fit in a uint32, and a chunk time no later than the clock. The wrap-around of `uint32(...)` for larger or negative values is not modelled.
- Analysis.Format.Playable: keeps `1 << bits` and `SampleRate * bpsa` inside their integer widths; overflowing headers are not modelled.
- ChunkedLive.Aligned: also requires a non-zero bpsa, because rgl3.go takes `wav_offset % bpsa`, which panics for zero.
- DirectLive.View.Tick: requires `time * bpse` plus the window to fit in a uint32. The wrap-around is not modelled.
- Spectrum.Animation.Animate: takes the data chunk as whole 4-byte sample frames. A truncated final frame is not modelled, and neither is the `struct.error` that `struct.unpack` raises for an odd byte count (`Spectrum.Unpack` drops the odd byte); whole-frame reads never produce one.
- Offline.Pump.RenderFrame, Offline.Pump.Run, DirectLive.View.Tick: the capacity of `wav_data.Data` is taken to equal its length. Go panics on `Data[lo:hi]` only when `hi` exceeds the capacity; bytes between the length and the capacity would be read instead.
- Offline.Zeros, Offline.Pump.constructor: the FFT buffer is taken to start zeroed, as `fftw.Alloc1d` is assumed to give it. This only shows in frame 0 when N < NFFT (a sample rate below 16000), where `FftInput` keeps the initial tail.
