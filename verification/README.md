# Turbidity detector: the estimator core in Dafny

The app estimates the turbidity of water from one camera frame. It draws a
frame into a 300×225 canvas and reads back the RGBA bytes. It walks the
bytes with stride 4. At each offset `i` it takes the brightness
`(data[i] + data[i+1] + data[i+2]) / 3`, so alpha is never read, and adds it
to a total. It divides the total by `length / 4`. When the ambient-light
sensor has delivered a truthy reading `L` (in lux), it scales that mean by
`L / 100`. The app also has a switch button that flips the camera's facing
mode between `"environment"` and `"user"`.

This project models those two pieces and proves their properties:

- `frame.dfy` (module `Frame`): the flat byte buffer (`Byte` = 0..255, as
  in a clamped 8-bit image buffer), its decoding into `Pixel`s (four bytes
  each, R G B A) and encoding back, with both round trips proved.
- `turbidity.dfy` (module `Estimator`): per-pixel brightness, the brightness
  total, the mean, the ambient-light adjustment, and the estimate as a pure
  definition (`Turbidity`) for every buffer length.
- `colour_sums.dfy` (module `ColourSums`): the closed form of the estimate,
  4·(sum of the non-alpha bytes) / (3·length), for every buffer that yields
  a number (`ClosedForm`).
- `calculation.dfy` (module `Calculation`): the estimator as the app writes
  it, the stride-4 pass (`BrightnessPass`) followed by the division and the
  adjustment (`CalculateTurbidity`), proved equal to `Turbidity` and to the
  closed form.
- `properties.dfy` (module `TurbidityProperties`): falsy and 100 lux
  readings, alpha is never read, pixel order does not matter, uniform grey
  frames, the 2×2 black/white checkerboard reads 127.5 (and 63.75 at
  50 lux), and the readings of buffers of length 4k + 3.
- `camera.dfy` (module `Camera`): the facing-mode toggle and its two-state cycle.

Arithmetic is exact: `real` stands for the app's IEEE doubles. The
outcome depends on the buffer length modulo 4:

- Length 0: the mean is `0 / 0`, which is NaN. The code has no guard; the
  model returns `NaN(EmptyFrame)`.
- Length 4k + 1 or 4k + 2: the last pass reads an index past the end. The
  value is `undefined`, so the total becomes NaN. The model returns
  `NaN(MissingChannel)`.
- Length 4k + 3: every read is in range, since only the alpha byte of the
  last pixel is missing. The trailing R, G, B triple adds its full
  brightness to the total, but the divisor `length / 4` is k + 3/4. The
  result is a number that can exceed 255; `[255, 255, 255]` reads 340.
- Length 4k (k > 0): the mean brightness of the k pixels.

A canvas buffer always holds `4 × width × height` bytes, so the app only
ever meets the last case. The model covers all four.

The ambient-light slot is `Option<real>`. `None` stands for the initial
`null`. JavaScript's truthiness test makes both `null` and `0` leave the mean
unscaled. Every other reading, negative ones included, scales it.

## Model

| member | source | states |
|---|---|---|
| Estimator.Brightness | vite-project/src/App.jsx:70 | a pixel's brightness lies in [0, 255], and a grey pixel (R = G = B) has brightness equal to its channel value |
| Estimator.TotalBrightness | vite-project/src/App.jsx:68-72 | the running total over n pixels lies between 0 and 255·n |
| Estimator.TotalIsChannelThird | vite-project/src/App.jsx:69-72 | adding per-pixel brightnesses gives the integer R + G + B total over all pixels divided by 3 |
| Estimator.MeanBrightness | vite-project/src/App.jsx:73 | the mean brightness of a non-empty frame lies in [0, 255] |
| Estimator.RaggedMean | vite-project/src/App.jsx:69-73 | on a buffer of length 4k + 3, the total (k pixels plus the trailing triple) over the fractional count k + 3/4 lies in [0, 340] |
| Estimator.Adjust | vite-project/src/App.jsx:75 | no reading (`null`) or a 0 reading leaves the mean unscaled; any other reading L gives mean·L/100; at L = 100 the mean is unchanged |
| Estimator.Turbidity | vite-project/src/App.jsx:67-76 | a number exactly when the buffer is non-empty and its length is 0 or 3 mod 4; the empty buffer is `NaN(EmptyFrame)`; lengths 1 and 2 mod 4 are `NaN(MissingChannel)`; without a usable light reading the number lies in [0, 255] for whole pixels and in [0, 340] otherwise |
| ColourSums.ColourSumOfPixels | vite-project/src/App.jsx:69-72 | on a whole-pixel buffer, the sum of the non-alpha bytes equals the R + G + B total of the decoded pixels |
| ColourSums.RaggedColourSum | vite-project/src/App.jsx:69-70 | on a buffer of length 4k + 3, the non-alpha sum is that of the whole pixels plus all three trailing bytes |
| ColourSums.WholeClosedForm | vite-project/src/App.jsx:68-73 | the mean of a non-empty whole-pixel buffer is 4·(non-alpha sum) / (3·length) |
| ColourSums.RaggedClosedForm | vite-project/src/App.jsx:68-73 | on a buffer of length 4k + 3 the loop's mean is also 4·(non-alpha sum) / (3·length) |
| ColourSums.ClosedForm | vite-project/src/App.jsx:68-75 | for every buffer that yields a number, the estimate is the ambient adjustment of 4·(non-alpha sum) / (3·length) |
| Calculation.LoopMean | vite-project/src/App.jsx:73-75 | the pass's total divided by `length / 4` and adjusted is the estimate `Turbidity` defines and its closed form |
| Calculation.BrightnessPass | vite-project/src/App.jsx:68-72 | the stride-4 pass reads past the end exactly when the length is 1 or 2 mod 4; otherwise its total is the brightness total of the whole pixels plus, for length 4k + 3, the trailing triple's brightness |
| Calculation.CalculateTurbidity | vite-project/src/App.jsx:67-76 | the pass, the division by `length / 4` and the adjustment, run as the app runs them with no early return, compute exactly the estimate `Turbidity` defines for every length (the two NaN causes included) and equal the closed form |
| TurbidityProperties.UnscaledReadings | vite-project/src/App.jsx:75 | a 0 lux reading gives the same estimate as no reading (unscaled, not 0), and so does a 100 lux reading |
| TurbidityProperties.AlphaFreeColourSum | vite-project/src/App.jsx:70 | buffers that differ only in bytes at offsets 4k + 3 have the same non-alpha sum |
| TurbidityProperties.AlphaIgnored | vite-project/src/App.jsx:69-70 | two buffers of any length that differ only in bytes at offsets 4k + 3 have the same estimate under any ambient light |
| TurbidityProperties.TotalPermutation | vite-project/src/App.jsx:69-72 | the brightness total depends only on the multiset of pixels, not their order |
| TurbidityProperties.PixelOrderIrrelevant | vite-project/src/App.jsx:69-73 | two whole-pixel buffers holding the same pixels in any order have the same estimate |
| TurbidityProperties.SwapKeepsTurbidity | vite-project/src/App.jsx:69-73 | exchanging the positions of any two pixels leaves the estimate unchanged |
| TurbidityProperties.UniformFrame | vite-project/src/App.jsx:70-75 | if every pixel of a whole-pixel buffer has R = G = B = v, the unadjusted estimate is exactly v and the adjusted one is the adjustment of v |
| TurbidityProperties.AllBlackFrame | vite-project/src/App.jsx:70-75 | an all-black frame reads 0 under any ambient light |
| TurbidityProperties.AllWhiteFrame | vite-project/src/App.jsx:70-73 | an all-white frame reads 255 without a light reading |
| TurbidityProperties.CheckerboardReadings | vite-project/src/App.jsx:67-76 | the 2×2 frame black, white, black, white reads 127.5 without a reading and 63.75 at 50 lux |
| TurbidityProperties.UniformColourSum | vite-project/src/App.jsx:70 | in a buffer whose colour bytes all equal v, the non-alpha sum is v times the number of non-alpha bytes, n − ⌊n/4⌋ |
| TurbidityProperties.UniformRaggedFrame | vite-project/src/App.jsx:69-73 | a uniformly grey buffer of length n = 4k + 3 reads v·(n + 1)/n, above its grey level v whenever v > 0 |
| TurbidityProperties.RaggedReadings | vite-project/src/App.jsx:69-73 | the lone triple 30, 60, 90 reads 80 (not its brightness 60), and a white triple reads 340 |
| Frame.EncodeDecode | vite-project/src/App.jsx:69-70 | a whole-pixel buffer is exactly its pixels' R, G, B, A bytes laid end to end, four per pixel |
| Camera.ToggleFacing | vite-project/src/App.jsx:42-44 | the next mode is always "environment" or "user"; it differs from a known previous mode; any unknown value flips to "environment" |
| Camera.ToggleTwiceRestores | vite-project/src/App.jsx:43 | from either known mode, two presses return to the starting mode |
| Camera.FacingAfter | vite-project/src/App.jsx:42-44 | after any number of presses the mode is one of the two known modes |
| Camera.FacingParity | vite-project/src/App.jsx:8-44 | starting from "environment", the mode is "environment" exactly after an even number of presses and "user" exactly after an odd number |

## Left out

- IEEE-754 rounding: the model computes with exact reals, so `127.5`, `63.75`, `80` and `340` are exact here and in the app alike, but in general the app's result may differ in the last bits.
- A NaN ambient reading (falsy in JavaScript) is not representable with `real`; only `null` and `0` are modelled as falsy.
- PixelOrderIrrelevant, SwapKeepsTurbidity, UniformFrame, AllBlackFrame and AllWhiteFrame are stated for whole-pixel buffers only. On length 4k + 3 the trailing triple has no pixel to swap with, and a uniform buffer reads v·(n + 1)/n instead, as UniformRaggedFrame states.
- React state and rendering (`useState`, `useRef`, `useEffect`, the JSX), including the `toFixed(2)` display and the `turbidity &&` test that hides a 0 result: presentation only.
- Camera acquisition (`getUserMedia`, video playback) and the canvas `drawImage`/`getImageData` calls: host I/O. The captured buffer is an input of the model.
- The ambient-light sensor subscription and the geolocation lookup: asynchronous host callbacks that only store a value. The stored light reading is an input of the model.
