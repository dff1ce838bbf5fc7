/** Packed 32-bit ARGB pixels (`0xAARRGGBB`, the bit pattern of a Kotlin `Int`)
    and the shift-and-mask channel extraction applied to them. */
module Argb {

  /** The bit pattern of one pixel as `Bitmap.getPixels` stores it in an `IntArray`. */
  type Pixel = bv32

  /** One 8-bit channel. */
  type Byte = bv8


  /** Kotlin `shr` on `Int`: an arithmetic shift that copies the sign bit into the vacated positions. */
  function Shr(p: bv32, n: bv32): (r: bv32)
    requires n < 32
    ensures p < 0x8000_0000 ==> r == p >> n
    ensures (r < 0x8000_0000) == (p < 0x8000_0000)
    ensures p >= 0x8000_0000 ==> r | (0xFFFF_FFFF >> n) == 0xFFFF_FFFF
    ensures n == 8 || n == 16 ==> r & 0xFF == (p >> n) & 0xFF
  {
    if p & 0x8000_0000 == 0 then p >> n else (p >> n) | !(0xFFFF_FFFF >> n)
  }

  /** `(p shr shift) and 0xFF`. */
  function Channel(p: Pixel, shift: bv32): Byte
    requires shift < 32
  {
    (Shr(p, shift) & 0xFF) as Byte
  }

  function Red(p: Pixel): Byte { Channel(p, 16) }
  function Green(p: Pixel): Byte { Channel(p, 8) }
  function Blue(p: Pixel): Byte { (p & 0xFF) as Byte }

  /** The alpha byte; the classifier never reads it. */
  function Alpha(p: Pixel): Byte { ((p >> 24) & 0xFF) as Byte }

  /** The value the Kotlin `Int` holding this bit pattern has (two's complement). */
  function SignedValue(p: Pixel): (v: int)
    ensures -0x8000_0000 <= v < 0x8000_0000
  {
    var low := ((p & 0x7FFF_FFFF) as bv31) as int;
    if p < 0x8000_0000 then low else low - 0x8000_0000
  }

  /** Assembles a pixel from its four bytes. */
  function Pack(a: Byte, r: Byte, g: Byte, b: Byte): Pixel {
    ((a as bv32) << 24) | ((r as bv32) << 16) | ((g as bv32) << 8) | (b as bv32)
  }

  /** Channel `k` of a pixel in the order the classifier emits them: 0 red, 1 green, 2 blue. */
  function ChannelAt(p: Pixel, k: nat): (c: int)
    requires k < 3
    ensures 0 <= c <= 255
    ensures k == 0 ==> c == Red(p) as int
    ensures k == 1 ==> c == Green(p) as int
    ensures k == 2 ==> c == Blue(p) as int
  {
    if k == 0 then Red(p) as int else if k == 1 then Green(p) as int else Blue(p) as int
  }

  /** The sign bit copied in by `shr` never reaches the masked byte: the arithmetic shift
      reads the same channel as a logical one, so a negative pixel value still gives 0..255. */
  lemma ArithmeticShiftMasked(p: Pixel)
    ensures Red(p) == ((p >> 16) & 0xFF) as Byte
    ensures Green(p) == ((p >> 8) & 0xFF) as Byte
  {
  }

  /** The pixel's `Int` value is negative exactly when the alpha byte has its top bit set. */
  lemma NegativeExactlyWhenHighAlpha(p: Pixel)
    ensures SignedValue(p) < 0 <==> Alpha(p) >= 0x80
  {
  }

  /** Extracting the channels of an assembled pixel gives back the bytes, whatever the
      alpha (so also when the pixel's `Int` value is negative). */
  lemma ChannelsOfPack(a: Byte, r: Byte, g: Byte, b: Byte)
    ensures Alpha(Pack(a, r, g, b)) == a
    ensures Red(Pack(a, r, g, b)) == r
    ensures Green(Pack(a, r, g, b)) == g
    ensures Blue(Pack(a, r, g, b)) == b
  {
    var p := Pack(a, r, g, b);
    ArithmeticShiftMasked(p);
  }

  /** A pixel is determined by its four channels. */
  lemma PackOfChannels(p: Pixel)
    ensures Pack(Alpha(p), Red(p), Green(p), Blue(p)) == p
  {
    ArithmeticShiftMasked(p);
  }
}
