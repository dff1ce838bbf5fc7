/** The horse/human classifier's own logic: packing a 224x224 pixel grid into the
    float input tensor, and turning the engine's score vector into a label. */
module ImageClassifier {
  import opened Options
  import Argb

  const INPUT_SIZE: nat := 224
  const PIXEL_SIZE: nat := 3
  const IMAGE_MEAN: int := 0
  const IMAGE_STD: real := 255.0

  /** Bytes taken by one `putFloat`. */
  const FLOAT_BYTES: nat := 4

  /** Floats in the input tensor: one per pixel and channel. */
  const TENSOR_LENGTH: nat := INPUT_SIZE * INPUT_SIZE * PIXEL_SIZE

  /** Bytes allocated for the input tensor. */
  const BUFFER_BYTES: nat := FLOAT_BYTES * INPUT_SIZE * INPUT_SIZE * PIXEL_SIZE

  /** The label returned when the selected index has no label. */
  const UNKNOWN: string := "Unknown"

  // ---------------------------------------------------------------------------
  // The input tensor
  // ---------------------------------------------------------------------------

  /** A direct `ByteBuffer` written only with `putFloat`: its capacity in bytes and
      the floats written so far (the byte position is four per float). */
  datatype FloatBuffer = FloatBuffer(capacity: nat, floats: seq<real>) {

    function Position(): nat {
      FLOAT_BYTES * |floats|
    }
  }

  /** `putFloat`: appends one value, or fails (`BufferOverflowException`) when fewer
      than four bytes remain. */
  function PutFloat(buffer: FloatBuffer, v: real): (r: Option<FloatBuffer>)
    ensures r.Some? <==> buffer.Position() + FLOAT_BYTES <= buffer.capacity
    ensures r.Some? ==> r.value.capacity == buffer.capacity
    ensures r.Some? ==> r.value.Position() == buffer.Position() + FLOAT_BYTES
    ensures r.Some? ==> r.value.floats[..|buffer.floats|] == buffer.floats && r.value.floats[|buffer.floats|] == v
  {
    if buffer.Position() + FLOAT_BYTES <= buffer.capacity then
      Some(FloatBuffer(buffer.capacity, buffer.floats + [v]))
    else None
  }

  /** `ByteBuffer.allocateDirect`. */
  function Allocate(capacity: nat): FloatBuffer {
    FloatBuffer(capacity, [])
  }

  /** `(c - IMAGE_MEAN) / IMAGE_STD`. */
  function Normalize(c: int): (r: real)
    ensures 0 <= c <= 255 ==> 0.0 <= r <= 1.0
  {
    (c - IMAGE_MEAN) as real / IMAGE_STD
  }

  /** Normalisation loses nothing: the channel byte is recovered from the float. */
  lemma NormalizeInvertible(c: int)
    ensures Normalize(c) * IMAGE_STD + IMAGE_MEAN as real == c as real
  {
  }

  /** Where pixel (i, j) sits in the `IntArray` filled by `getPixels`. */
  function PixelIndex(i: nat, j: nat): (r: nat)
    requires i < INPUT_SIZE && j < INPUT_SIZE
    ensures r < INPUT_SIZE * INPUT_SIZE
    ensures r / INPUT_SIZE == i && r % INPUT_SIZE == j
  {
    i * INPUT_SIZE + j
  }

  /** The tensor slot of channel k of pixel (i, j). */
  function Slot(i: nat, j: nat, k: nat): (q: nat)
    requires i < INPUT_SIZE && j < INPUT_SIZE && k < PIXEL_SIZE
    ensures q < TENSOR_LENGTH
    ensures q / PIXEL_SIZE == PixelIndex(i, j) && q % PIXEL_SIZE == k
  {
    PIXEL_SIZE * PixelIndex(i, j) + k
  }

  /** Every tensor slot belongs to exactly one (pixel, channel) position. */
  lemma SlotBijective(q: nat)
    requires q < TENSOR_LENGTH
    ensures var p := q / PIXEL_SIZE;
            var i, j, k := p / INPUT_SIZE, p % INPUT_SIZE, q % PIXEL_SIZE;
            i < INPUT_SIZE && j < INPUT_SIZE && k < PIXEL_SIZE && Slot(i, j, k) == q
  {
  }

  /** Reference layout: slot q holds channel `q % 3` of pixel `q / 3`, normalised. */
  function Tensor(pixels: seq<Argb.Pixel>): (t: seq<real>)
    requires |pixels| == INPUT_SIZE * INPUT_SIZE
    ensures |t| == TENSOR_LENGTH
    ensures forall q :: 0 <= q < |t| ==> 0.0 <= t[q] <= 1.0
  {
    seq(TENSOR_LENGTH, q requires 0 <= q < TENSOR_LENGTH =>
      Normalize(Argb.ChannelAt(pixels[q / PIXEL_SIZE], q % PIXEL_SIZE)))
  }

  /** In the reference layout, channel k of pixel (i, j) is at `Slot(i, j, k)`. */
  lemma TensorLayout(pixels: seq<Argb.Pixel>)
    requires |pixels| == INPUT_SIZE * INPUT_SIZE
    ensures forall i, j, k | 0 <= i < INPUT_SIZE && 0 <= j < INPUT_SIZE && 0 <= k < PIXEL_SIZE ::
              Tensor(pixels)[Slot(i, j, k)] == Normalize(Argb.ChannelAt(pixels[PixelIndex(i, j)], k))
  {
  }

  /** Extending the written prefix by one pixel appends its three normalised channels. */
  lemma TensorPrefixStep(pixels: seq<Argb.Pixel>, n: nat)
    requires |pixels| == INPUT_SIZE * INPUT_SIZE
    requires n < |pixels|
    ensures Tensor(pixels)[..PIXEL_SIZE * (n + 1)]
         == Tensor(pixels)[..PIXEL_SIZE * n] + [Normalize(Argb.ChannelAt(pixels[n], 0)),
                                                Normalize(Argb.ChannelAt(pixels[n], 1)),
                                                Normalize(Argb.ChannelAt(pixels[n], 2))]
  {
    var t := Tensor(pixels);
    var q := PIXEL_SIZE * n;
    assert q / PIXEL_SIZE == n && (q + 1) / PIXEL_SIZE == n && (q + 2) / PIXEL_SIZE == n;
    assert t[..q + 3] == t[..q] + [t[q], t[q + 1], t[q + 2]];
  }

  /** The three `putFloat` calls for one pixel: red, green, blue. */
  method PutPixel(buffer: FloatBuffer, pixel: Argb.Pixel) returns (r: FloatBuffer)
    requires buffer.Position() + PIXEL_SIZE * FLOAT_BYTES <= buffer.capacity
    ensures r.capacity == buffer.capacity
    ensures r.floats == buffer.floats + [Normalize(Argb.ChannelAt(pixel, 0)),
                                         Normalize(Argb.ChannelAt(pixel, 1)),
                                         Normalize(Argb.ChannelAt(pixel, 2))]
  {
    r := PutFloat(buffer, Normalize(Argb.Red(pixel) as int)).value;
    r := PutFloat(r, Normalize(Argb.Green(pixel) as int)).value;
    r := PutFloat(r, Normalize(Argb.Blue(pixel) as int)).value;
  }

  /** `convertBitmapToByteBuffer`, from the pixel array `getPixels` fills: visits the
      pixels row by row and writes red, green and blue of each, normalised; the buffer
      never overflows and ends exactly full. */
  method ConvertBitmapToByteBuffer(pixels: seq<Argb.Pixel>) returns (buffer: FloatBuffer)
    requires |pixels| == INPUT_SIZE * INPUT_SIZE
    ensures buffer.capacity == BUFFER_BYTES
    ensures buffer.Position() == buffer.capacity
    ensures buffer.floats == Tensor(pixels)
    ensures forall i, j, k | 0 <= i < INPUT_SIZE && 0 <= j < INPUT_SIZE && 0 <= k < PIXEL_SIZE ::
              buffer.floats[Slot(i, j, k)] == Normalize(Argb.ChannelAt(pixels[PixelIndex(i, j)], k))
    ensures forall q :: 0 <= q < |buffer.floats| ==> 0.0 <= buffer.floats[q] <= 1.0
  {
    ghost var tensor := Tensor(pixels);
    buffer := Allocate(BUFFER_BYTES);
    var i := 0;
    while i < INPUT_SIZE
      invariant 0 <= i <= INPUT_SIZE
      invariant buffer.capacity == BUFFER_BYTES
      invariant buffer.floats == tensor[..PIXEL_SIZE * (i * INPUT_SIZE)]
    {
      var j := 0;
      while j < INPUT_SIZE
        invariant 0 <= j <= INPUT_SIZE
        invariant buffer.capacity == BUFFER_BYTES
        invariant buffer.floats == tensor[..PIXEL_SIZE * (i * INPUT_SIZE + j)]
      {
        TensorPrefixStep(pixels, i * INPUT_SIZE + j);
        buffer := PutPixel(buffer, pixels[i * INPUT_SIZE + j]);
        j := j + 1;
      }
      i := i + 1;
    }
    assert buffer.floats == tensor;
    TensorLayout(pixels);
  }

  // ---------------------------------------------------------------------------
  // Selecting the label
  // ---------------------------------------------------------------------------

  /** Position i holds a maximal score and every earlier score is strictly smaller. */
  ghost predicate IsFirstMax(scores: seq<real>, i: int) {
    && 0 <= i < |scores|
    && (forall k :: 0 <= k < |scores| ==> scores[k] <= scores[i])
    && (forall k :: 0 <= k < i ==> scores[k] < scores[i])
  }

  /** The scan of `maxByOrNull`: `best` is the running maximum, replaced only by a
      strictly greater score. */
  function MaxByFrom(scores: seq<real>, best: nat, next: nat): (r: nat)
    requires best < next <= |scores|
    requires forall k :: 0 <= k < best ==> scores[k] < scores[best]
    requires forall k :: best <= k < next ==> scores[k] <= scores[best]
    ensures IsFirstMax(scores, r)
    decreases |scores| - next
  {
    if next == |scores| then best
    else if scores[best] < scores[next] then MaxByFrom(scores, next, next + 1)
    else MaxByFrom(scores, best, next + 1)
  }

  /** `indices.maxByOrNull { scores[it] } ?: -1`. */
  function MaxIndexOrMinusOne(scores: seq<real>): (index: int)
    ensures index == -1 <==> |scores| == 0
    ensures index != -1 ==> IsFirstMax(scores, index)
  {
    if |scores| == 0 then -1 else MaxByFrom(scores, 0, 1)
  }

  /** There is only one first maximum, so the selected index is determined by the scores. */
  lemma FirstMaxUnique(scores: seq<real>, i: int, j: int)
    requires IsFirstMax(scores, i) && IsFirstMax(scores, j)
    ensures i == j
  {
    assert scores[i] <= scores[j] && scores[j] <= scores[i];
  }

  /** The selected index is the one and only first maximum. */
  lemma OnlyFirstMaxSelected(scores: seq<real>)
    ensures forall i :: IsFirstMax(scores, i) ==> i == MaxIndexOrMinusOne(scores)
  {
    forall i | IsFirstMax(scores, i)
      ensures i == MaxIndexOrMinusOne(scores)
    {
      FirstMaxUnique(scores, i, MaxIndexOrMinusOne(scores));
    }
  }

  /** The guarded label lookup. */
  function LabelAt(labels: seq<string>, index: int): (result: string)
    ensures 0 <= index < |labels| ==> result == labels[index]
    ensures !(0 <= index < |labels|) ==> result == UNKNOWN
    ensures result == UNKNOWN || result in labels
  {
    if index >= 0 && index < |labels| then labels[index] else UNKNOWN
  }

  /** The output half of `classifyImage`: the label of the first highest score, or
      "Unknown" when there is no score or no label at that index. */
  function ClassifyScores(scores: seq<real>, labels: seq<string>): (result: string)
    ensures |scores| == 0 ==> result == UNKNOWN
    ensures forall i :: IsFirstMax(scores, i) ==>
              result == (if i < |labels| then labels[i] else UNKNOWN)
    ensures result == UNKNOWN || result in labels
  {
    OnlyFirstMaxSelected(scores);
    LabelAt(labels, MaxIndexOrMinusOne(scores))
  }

  /** `classifyImage` from the resized bitmap's pixels on: pack the tensor, hand it to
      the inference engine (a parameter), select the label. */
  method ClassifyImage(pixels: seq<Argb.Pixel>, labels: seq<string>, engine: seq<real> -> seq<real>)
    returns (result: string)
    requires |pixels| == INPUT_SIZE * INPUT_SIZE
    ensures var scores := engine(Tensor(pixels));
            forall i :: IsFirstMax(scores, i) ==> result == (if i < |labels| then labels[i] else UNKNOWN)
    ensures engine(Tensor(pixels)) == [] ==> result == UNKNOWN
  {
    var buffer := ConvertBitmapToByteBuffer(pixels);
    var scores := engine(buffer.floats);
    result := ClassifyScores(scores, labels);
  }

  /** Scores [0.2, 0.7] over ["horse", "human"] select "human". */
  lemma ClassifyHuman()
    ensures ClassifyScores([0.2, 0.7], ["horse", "human"]) == "human"
  {
    assert IsFirstMax([0.2, 0.7], 1);
  }

  /** A tie [0.5, 0.5] selects the first label. */
  lemma ClassifyTieFirstWins()
    ensures ClassifyScores([0.5, 0.5], ["horse", "human"]) == "horse"
  {
    assert IsFirstMax([0.5, 0.5], 0);
  }
}
