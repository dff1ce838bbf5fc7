# Horse/human classifier and object-detector post-processing, in Dafny

This project models the sequential logic of two small Android screens built around
TensorFlow Lite: a binary image classifier ("horse" vs "human") and an object
detector that draws labelled boxes. The trained models and the inference engine are
opaque; what the app itself computes is modelled and proved:

- **Input encoding** (`ImageClassifier.convertBitmapToByteBuffer`): a 224×224 grid of
  packed 32-bit ARGB pixels becomes a direct buffer of 224·224·3 floats. Pixels go in
  row-major order, and each pixel gives red, green, blue, taken out with
  `shr`/`and 0xFF` and normalised as `(c − 0) / 255`. Channel k of pixel (i, j) lands
  in slot `3·(i·224 + j) + k`. The buffer is modelled with its byte capacity, and
  `putFloat` overflow is an explicit failure. The packing loop is proved never to
  overflow and to leave the 602 112-byte buffer exactly full.
- **Output selection** (`classifyImage`): `maxByOrNull` over the score vector. The
  first maximum wins, and an empty vector gives −1. The guarded label lookup gives
  "Unknown" out of range.
- **Detector post-processing** (object-detection `MainActivity`): each detection becomes
  a box and a caption. The caption is "Unknown" without categories. Otherwise it is
  `"<label>, <pct>%"` from the first category. The captions are proved to parse back
  uniquely. Drawing is modelled as the sequence of canvas calls: a font size clamped
  to at most 80 (IEEE division by a zero text width included), a margin of at least 0,
  and an anchor at `box.left + margin`, `box.top + textHeight`.

Modules: `Options` (optional values), `Decimal` (Kotlin `Int.toString` and a strict reader that inverts it),
`KotlinNumbers` (`Float.toInt`), `Argb` (pixel channels), `ImageClassifier`,
`ObjectDetection`, `BoxDrawing`. Pixels are `bv32` bit patterns of the Kotlin `Int`.
Scores, box edges and sizes are `real`.

The inference engine (`Interpreter.run`) is a function parameter of
`ImageClassifier.ClassifyImage`. `getTextBounds` is a function parameter
(`measure`) of the drawing functions. The detector's output list is a plain input.

Notes on the modelled behaviour:
- The caption percentage is `Float.toInt()` of `score·100`, which truncates toward zero
  and saturates. For scores in [0, 1] this is the floor, and
  `ObjectDetection.ScorePercent` proves that range.
- The caption uses the first category of the detection's list, which the engine
  conventionally orders best first; the model takes the first category as given.
- The sentinel caption is spelled "Unknown", as in the code.

## Model

| member | source | states |
|---|---|---|
| Argb.ChannelAt | app/src/main/java/com/example/horse_human_classify/ImageClassifier.kt:84-86 | channel 0, 1, 2 is red, green, blue of the pixel, always within 0..255 |
| Argb.Shr | app/src/main/java/com/example/horse_human_classify/ImageClassifier.kt:84-85 | Kotlin `shr` keeps the sign, fills the vacated high bits with ones for a negative value, is the logical shift for a non-negative one, and for shifts 8 and 16 leaves the low byte of the logical shift |
| Argb.ArithmeticShiftMasked | app/src/main/java/com/example/horse_human_classify/ImageClassifier.kt:84-85 | the sign bits copied in by `shr` never reach the masked byte: arithmetic and logical shift read the same channel |
| Argb.NegativeExactlyWhenHighAlpha | app/src/main/java/com/example/horse_human_classify/ImageClassifier.kt:83 | the pixel's `Int` value is negative exactly when its alpha byte is 0x80 or more |
| Argb.ChannelsOfPack | app/src/main/java/com/example/horse_human_classify/ImageClassifier.kt:84-86 | for a pixel assembled from any four bytes (any alpha, so also negative pixels), extraction returns those exact red, green, blue (and alpha) bytes |
| Argb.PackOfChannels | app/src/main/java/com/example/horse_human_classify/ImageClassifier.kt:84-86 | a pixel is fully determined by its alpha and the three extracted channels |
| ImageClassifier.Normalize | app/src/main/java/com/example/horse_human_classify/ImageClassifier.kt:84-86 | with mean 0 and std 255, every channel byte maps into [0, 1] |
| ImageClassifier.NormalizeInvertible | app/src/main/java/com/example/horse_human_classify/ImageClassifier.kt:23-24 | normalisation loses nothing: value·255 + 0 gives the channel back |
| ImageClassifier.PutFloat | app/src/main/java/com/example/horse_human_classify/ImageClassifier.kt:84 | `putFloat` succeeds exactly when four bytes remain, advances the position by four and keeps earlier values |
| ImageClassifier.PixelIndex | app/src/main/java/com/example/horse_human_classify/ImageClassifier.kt:83 | pixel (i, j) is read inside the 224² array, and the index determines (i, j) |
| ImageClassifier.Slot | app/src/main/java/com/example/horse_human_classify/ImageClassifier.kt:81-87 | slot of (i, j, k) lies in the tensor, and the slot determines pixel index and channel |
| ImageClassifier.SlotBijective | app/src/main/java/com/example/horse_human_classify/ImageClassifier.kt:81-87 | every tensor slot is the slot of exactly one (i, j, k) |
| ImageClassifier.Tensor | app/src/main/java/com/example/horse_human_classify/ImageClassifier.kt:75 | the reference tensor has 224·224·3 values, all in [0, 1] |
| ImageClassifier.TensorLayout | app/src/main/java/com/example/horse_human_classify/ImageClassifier.kt:81-87 | in the reference tensor, channel k of pixel (i, j) sits at slot 3·(i·224 + j) + k |
| ImageClassifier.TensorPrefixStep | app/src/main/java/com/example/horse_human_classify/ImageClassifier.kt:84-86 | writing one more pixel appends its red, green and blue values, in that order |
| ImageClassifier.PutPixel | app/src/main/java/com/example/horse_human_classify/ImageClassifier.kt:84-86 | the three `putFloat` calls append normalised R, G, B when twelve bytes remain |
| ImageClassifier.ConvertBitmapToByteBuffer | app/src/main/java/com/example/horse_human_classify/ImageClassifier.kt:74-90 | the buffer of 4·224·224·3 bytes never overflows, ends exactly full, equals the reference tensor, holds channel k of pixel (i, j) at slot 3·(i·224 + j) + k, and every value is in [0, 1] |
| ImageClassifier.MaxByFrom | app/src/main/java/com/example/horse_human_classify/ImageClassifier.kt:68 | the left-to-right scan that replaces the best index only on a strictly greater score ends on the first maximum |
| ImageClassifier.MaxIndexOrMinusOne | app/src/main/java/com/example/horse_human_classify/ImageClassifier.kt:68 | −1 exactly for an empty vector; otherwise a maximal score with every earlier score strictly smaller |
| ImageClassifier.FirstMaxUnique | app/src/main/java/com/example/horse_human_classify/ImageClassifier.kt:68 | a score vector has at most one first maximum |
| ImageClassifier.OnlyFirstMaxSelected | app/src/main/java/com/example/horse_human_classify/ImageClassifier.kt:68 | any first maximum is the selected index |
| ImageClassifier.LabelAt | app/src/main/java/com/example/horse_human_classify/ImageClassifier.kt:71 | the guarded lookup returns `labelList[index]` exactly for an index in range and "Unknown" otherwise, so it is always "Unknown" or a member of the list and never reads out of range |
| ImageClassifier.ClassifyScores | app/src/main/java/com/example/horse_human_classify/ImageClassifier.kt:68-71 | the result is the label of the first maximum when it has one, "Unknown" when it has none or the vector is empty; it is always "Unknown" or a member of the label list |
| ImageClassifier.ClassifyImage | app/src/main/java/com/example/horse_human_classify/ImageClassifier.kt:56-72 | packing, engine call and selection give the label of the first maximum of the engine's scores for the reference tensor, or "Unknown" |
| ImageClassifier.ClassifyHuman | app/src/main/java/com/example/horse_human_classify/ImageClassifier.kt:68-71 | scores [0.2, 0.7] over ["horse", "human"] give "human" |
| ImageClassifier.ClassifyTieFirstWins | app/src/main/java/com/example/horse_human_classify/ImageClassifier.kt:68-71 | the tie [0.5, 0.5] gives "horse": the first maximum wins |
| KotlinNumbers.FloatToInt | app/src/main/java/com/example/obj_detect_task_library_custom/MainActivity.kt:83 | `toInt()` lies in the `Int` range, truncates toward zero inside it and saturates outside it |
| KotlinNumbers.FloatToIntOfInt | app/src/main/java/com/example/obj_detect_task_library_custom/MainActivity.kt:83 | an integral value converts to itself |
| KotlinNumbers.FloatToIntMonotone | app/src/main/java/com/example/obj_detect_task_library_custom/MainActivity.kt:83 | the conversion is monotone |
| Decimal.NatToString | app/src/main/java/com/example/obj_detect_task_library_custom/MainActivity.kt:83 | digits of a natural are non-empty decimal digits without a leading zero |
| Decimal.IntToString | app/src/main/java/com/example/obj_detect_task_library_custom/MainActivity.kt:83 | a leading minus exactly for negative values, followed by canonical digits (never "-0") |
| Decimal.ValueOfNatToString | app/src/main/java/com/example/obj_detect_task_library_custom/MainActivity.kt:83 | the digits denote the number they were made from |
| Decimal.NatToStringOfValue | app/src/main/java/com/example/obj_detect_task_library_custom/MainActivity.kt:83 | canonical digit strings are exactly the renderings of their values |
| Decimal.ParseIntToString | app/src/main/java/com/example/obj_detect_task_library_custom/MainActivity.kt:83 | parsing a rendered `Int` gives it back |
| Decimal.ParseIntExactly | app/src/main/java/com/example/obj_detect_task_library_custom/MainActivity.kt:83 | a string parses to n exactly when it is the rendering of n |
| ObjectDetection.ScorePercent | app/src/main/java/com/example/obj_detect_task_library_custom/MainActivity.kt:83 | for a score in [0, 1] the percentage is in 0..100 and is the floor of score·100 |
| ObjectDetection.CategoryText | app/src/main/java/com/example/obj_detect_task_library_custom/MainActivity.kt:83 | the caption template starts with the label, ends with "%", and is never "Unknown"; `ObjectDetection.ParseCategoryTextExactly` proves it is read back to exactly its label and percentage |
| ObjectDetection.ParseCategoryTextOf | app/src/main/java/com/example/obj_detect_task_library_custom/MainActivity.kt:83 | a caption `"<label>, <pct>%"` parses back to that label and percentage, whatever the label contains |
| ObjectDetection.ParsedIsCaption | app/src/main/java/com/example/obj_detect_task_library_custom/MainActivity.kt:83 | anything that parses is the caption of what it parses to |
| ObjectDetection.ParseCategoryTextExactly | app/src/main/java/com/example/obj_detect_task_library_custom/MainActivity.kt:83 | a string parses to (label, pct) if and only if it is that caption |
| ObjectDetection.DetectionText | app/src/main/java/com/example/obj_detect_task_library_custom/MainActivity.kt:79-83 | the caption is "Unknown" exactly when there are no categories; otherwise it reads back as the first category's label and percentage |
| ObjectDetection.MapDetections | app/src/main/java/com/example/obj_detect_task_library_custom/MainActivity.kt:78-87 | one entry per detection, same order, box unchanged, caption of that detection |
| ObjectDetection.MapDetectionsCaptions | app/src/main/java/com/example/obj_detect_task_library_custom/MainActivity.kt:79-86 | a detection without categories is kept with its box and caption "Unknown"; one with categories is captioned from the first category only |
| BoxDrawing.Divide | app/src/main/java/com/example/obj_detect_task_library_custom/MainActivity.kt:120 | a nonzero divisor gives the finite quotient; division by zero gives ±infinity by the sign of the dividend, else NaN |
| BoxDrawing.LessThan | app/src/main/java/com/example/obj_detect_task_library_custom/MainActivity.kt:123 | the float comparison `fontSize < pen.textSize`: on finite values it is `<`, -infinity is always less, NaN and +infinity are never less, and anything less is at most the bound |
| BoxDrawing.FontSize | app/src/main/java/com/example/obj_detect_task_library_custom/MainActivity.kt:118-123 | the size never exceeds 80; for a positive text width it is min(80, 80·boxWidth/textWidth); for a zero width it stays 80 unless the box width is negative |
| BoxDrawing.FontSizeNotScaledUp | app/src/main/java/com/example/obj_detect_task_library_custom/MainActivity.kt:120-123 | a caption that already fits keeps the base size 80 |
| BoxDrawing.ScaledCaptionFits | app/src/main/java/com/example/obj_detect_task_library_custom/MainActivity.kt:118-123 | at the chosen size the caption is no wider than the box and shrinks only as far as needed |
| BoxDrawing.Margin | app/src/main/java/com/example/obj_detect_task_library_custom/MainActivity.kt:125-126 | the margin is never negative; a caption that fits is centred (equal gaps); one that does not fit gets margin 0 |
| BoxDrawing.PlaceCaption | app/src/main/java/com/example/obj_detect_task_library_custom/MainActivity.kt:118-129 | size at most 80, and for a positive measured width exactly 80 when the text fits and 80·boxWidth/textWidth when it does not; x = box.left + margin ≥ box.left, y = box.top + text height, centred when it fits, flush left when it does not |
| BoxDrawing.CaptionInsideBox | app/src/main/java/com/example/obj_detect_task_library_custom/MainActivity.kt:118-129 | with a positive measured width and a box of non-negative width, the drawn caption starts and ends inside the box horizontally |
| BoxDrawing.PlacedCaptionIsPlaced | app/src/main/java/com/example/obj_detect_task_library_custom/MainActivity.kt:118-130 | the caption drawn at its placement is red, at most size 80 (for a positive measured width exactly min(80, 80·boxWidth/textWidth)), at `box.top` + text height, at or right of `box.left`, centred when it fits, flush left when it does not, and ends inside a non-degenerate box |
| BoxDrawing.DrawItem | app/src/main/java/com/example/obj_detect_task_library_custom/MainActivity.kt:104-131 | one green outline of the box, then one red caption with the item's text, placed as lines 118-130 place it: size at most 80 and, for a positive measured width, exactly 80 when the text fits and 80·boxWidth/textWidth otherwise, x = box.left + clamped margin (centred when it fits, flush left otherwise), y = box.top + text height, and at its size ending inside a box of non-negative width |
| BoxDrawing.DrawBoxTextDetections | app/src/main/java/com/example/obj_detect_task_library_custom/MainActivity.kt:95-133 | two canvas calls per item, in item order, each pair those of its item |
| BoxDrawing.RenderDetections | app/src/main/java/com/example/obj_detect_task_library_custom/MainActivity.kt:78-90 | every detection gets its box outlined and a caption, none dropped, in order; a detection without categories is captioned "Unknown"; each caption is placed in its box as `BoxDrawing.DrawItem` states (centred when it fits, size exactly min(80, 80·boxWidth/textWidth) for a positive measured width, inside the box) |

## Left out

- Asset loading (`loadModelFile`, `loadLabels`) and the `by lazy` memoisation are I/O. The label list is a plain input.
- The inference calls `Interpreter.run`, `ObjectDetector.detect` and `TensorImage.fromBitmap` are opaque engine code. Their outputs are arbitrary inputs or a function parameter. This also covers the `setMaxResults(3)` option and the output array of `BATCH_SIZE` = 1 row of `NUM_CLASSES` = 2 floats (both constants exist only to size that array, so the model has no counterpart for them): the model accepts a score vector of any length, so the −1 / "Unknown" path is reachable in the model although the source's two-element array never triggers it.
- `Bitmap.createScaledBitmap` (bilinear resampling) and `bitmap.getPixels` are platform code. The model starts from the 224² pixel array.
- `ByteBuffer` native byte order and IEEE bit patterns are not modelled. The tensor is a sequence of values with a byte capacity.
- Float rounding is not modelled. Scores, box edges, sizes, `score.times(100)` and the font-size division are computed over reals. Division by zero and its infinities and NaN are modelled.
- NaN scores are not modelled. Kotlin's `maxByOrNull` on floats orders NaN above every number; the model's scores are reals.
- Signed zeros are not modelled. `maxByOrNull` compares boxed `Float`s with `compareTo`, which orders -0.0 below 0.0, so scores [-0.0, 0.0] select index 1 in Kotlin; as reals the two are equal and the model selects index 0.
- `bitmap.copy`, `Canvas`, `Paint` and text rasterisation are not modelled. Drawing is the list of canvas calls. `getTextBounds` at size 80 is the `measure` parameter. The source bitmap is an immutable value, so it is trivially left untouched.
- The classifier and detector activities' UI, image picking, decoding, click handling and the `printStackTrace` on initialisation failure are not modelled. So is the `print_results` logging.
