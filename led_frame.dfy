/**
 * The LED frame carried by the `led` command: a 4096-byte buffer read as a
 * 16-bit pixel count (bytes 0-1, little-endian as the firmware's target
 * stores it) followed by packed 3-byte (r, g, b) records, pixel i at bytes
 * 2+3i .. 4+3i.
 */
module LedFrame {
  import opened Common

  /** One packed pixel record, and one strip entry. */
  datatype Rgb = Rgb(r: u8, g: u8, b: u8)

  /** Size of the decode buffer. */
  const BufferSize: nat := 4096

  /** The longest strip whose every pixel record lies inside the buffer. */
  const MaxStripLeds: nat := 1364

  /** The declared pixel count (`control.num_leds`). */
  function Count(raw: seq<u8>): u16
    requires |raw| >= 2
  {
    FromLe16(raw[0], raw[1])
  }

  /** Byte offset of pixel `i`'s record. */
  function PixelOffset(i: nat): nat {
    2 + 3 * i
  }

  /** Pixel record `i` (`control.data[i]`). */
  function PixelAt(raw: seq<u8>, i: nat): Rgb
    requires PixelOffset(i) + 3 <= |raw|
  {
    Rgb(raw[PixelOffset(i)], raw[PixelOffset(i) + 1], raw[PixelOffset(i) + 2])
  }

  /** Every pixel of a strip of at most `MaxStripLeds` entries lies inside the buffer. */
  lemma PixelsFitBuffer(i: nat)
    requires i < MaxStripLeds
    ensures PixelOffset(i) + 3 <= BufferSize
  {
  }

  /** The records of `pixels`, packed. */
  function PixelBytes(pixels: seq<Rgb>): (b: seq<u8>)
    ensures |b| == 3 * |pixels|
  {
    if pixels == [] then []
    else [pixels[0].r, pixels[0].g, pixels[0].b] + PixelBytes(pixels[1..])
  }

  /** A frame as a sender lays it out: the count, then the records. */
  function FrameBytes(count: u16, pixels: seq<Rgb>): (b: seq<u8>)
    ensures |b| == 2 + 3 * |pixels|
  {
    Le16(count) + PixelBytes(pixels)
  }

  lemma {:induction false} PixelBytesAt(pixels: seq<Rgb>, i: nat)
    requires i < |pixels|
    ensures PixelBytes(pixels)[3 * i] == pixels[i].r
    ensures PixelBytes(pixels)[3 * i + 1] == pixels[i].g
    ensures PixelBytes(pixels)[3 * i + 2] == pixels[i].b
  {
    if i > 0 {
      PixelBytesAt(pixels[1..], i - 1);
    }
  }

  /** Reading a frame back gives the count and pixels it was built from, whatever follows it in the buffer. */
  lemma FrameLayout(count: u16, pixels: seq<Rgb>, tail: seq<u8>)
    ensures Count(FrameBytes(count, pixels) + tail) == count
    ensures forall i :: 0 <= i < |pixels| ==> PixelAt(FrameBytes(count, pixels) + tail, i) == pixels[i]
  {
    var raw := FrameBytes(count, pixels) + tail;
    Le16RoundTrip(count);
    forall i | 0 <= i < |pixels|
      ensures PixelAt(raw, i) == pixels[i]
    {
      PixelBytesAt(pixels, i);
    }
  }
}
