/**
 * The `led` command: decode the base64 argument into the command's own
 * 4096-byte scratch buffer and copy the first min(strip length, declared
 * count) pixels into the strip. The scratch buffer is never cleared, so
 * bytes the current decode does not reach keep their earlier contents.
 */
module LedCommand {
  import opened Common
  import opened LedFrame
  import Base64

  /** What the command makes visible: a latch of the strip, the success reply, the failure line. */
  datatype LedEvent = Show | UpReply(count: u16) | DecodeFailedLine

  /** The buffer after a decode that wrote `written` at its front. */
  function Overlay(buffer: seq<u8>, written: seq<u8>): seq<u8>
    requires |written| <= |buffer|
  {
    written + buffer[|written|..]
  }

  /** The strip after applying the frame in `raw` to its first `numLeds` entries. */
  function Applied(strip: seq<Rgb>, raw: seq<u8>, numLeds: nat): seq<Rgb>
    requires |raw| == BufferSize && numLeds <= |strip| && numLeds <= MaxStripLeds
  {
    seq(|strip|, i requires 0 <= i < |strip| =>
      if i < numLeds && i < Count(raw) then PixelAt(raw, i) else strip[i])
  }

  class LedCommand {
    /** The strip, shared with the LED driver. */
    const leds: array<Rgb>
    const numLeds: nat
    /** The decode buffer; it persists between calls. */
    const scratch: array<u8>
    ghost var events: seq<LedEvent>

    ghost predicate Valid()
      reads this
    {
      scratch.Length == BufferSize && numLeds <= leds.Length && numLeds <= MaxStripLeds
    }

    constructor (leds: array<Rgb>, numLeds: nat)
      requires numLeds <= leds.Length && numLeds <= MaxStripLeds
      ensures Valid() && fresh(scratch)
      ensures this.leds == leds && this.numLeds == numLeds && events == []
    {
      this.leds := leds;
      this.numLeds := numLeds;
      scratch := new u8[BufferSize](_ => 0);
      events := [];
    }

    method Process(args: seq<char8>)
      requires Valid()
      modifies leds, scratch, this`events
      ensures Valid()
      ensures var d := Base64.Decoded(ToBytes(args), BufferSize);
        scratch[..] == Overlay(old(scratch[..]), d.written) &&
        (d.ok ==> leds[..] == Applied(old(leds[..]), scratch[..], numLeds)
                  && events == old(events) + [Show, UpReply(Count(scratch[..]))]) &&
        (!d.ok ==> leds[..] == old(leds[..]) && events == old(events) + [DecodeFailedLine])
    {
      var ok := Base64.Decode(ToBytes(args), scratch);
      ghost var d := Base64.Decoded(ToBytes(args), BufferSize);
      assert scratch[..] == scratch[..|d.written|] + scratch[|d.written|..];
      if ok {
        var count := scratch[0] as int + 256 * (scratch[1] as int);
        ghost var raw := scratch[..];
        var i := 0;
        while i < numLeds && i < count
          invariant 0 <= i <= numLeds && i <= count
          invariant scratch[..] == raw && events == old(events)
          invariant forall k :: 0 <= k < leds.Length ==>
            leds[k] == if k < i then PixelAt(scratch[..], k) else old(leds[k])
        {
          PixelsFitBuffer(i);
          leds[i] := Rgb(scratch[2 + 3 * i], scratch[3 + 3 * i], scratch[4 + 3 * i]);
          i := i + 1;
        }
        assert count == Count(raw);
        assert forall k :: 0 <= k < leds.Length ==> leds[..][k] == Applied(old(leds[..]), raw, numLeds)[k];
        events := events + [Show, UpReply(count)];
      } else {
        events := events + [DecodeFailedLine];
      }
    }
  }

  // ---------------------------------------------------------------------
  // Properties

  /** Entries at or beyond min(strip length, declared count) keep their value. */
  lemma AppliedLeavesTail(strip: seq<Rgb>, raw: seq<u8>, numLeds: nat, i: nat)
    requires |raw| == BufferSize && numLeds <= |strip| && numLeds <= MaxStripLeds
    requires i < |strip| && (i >= numLeds || i >= Count(raw))
    ensures Applied(strip, raw, numLeds)[i] == strip[i]
  {
  }

  /**
   * A well-formed frame declaring `count` pixels, sent as base64, sets the
   * first min(numLeds, count) strip entries to its pixels and leaves the
   * others as they were.
   */
  lemma FrameApplied(strip: seq<Rgb>, before: seq<u8>, numLeds: nat, count: u16, pixels: seq<Rgb>)
    requires |before| == BufferSize && numLeds <= |strip| && numLeds <= MaxStripLeds
    requires |FrameBytes(count, pixels)| <= BufferSize
    requires count <= |pixels| || numLeds <= |pixels|
    ensures var d := Base64.Decoded(Base64.Encode(FrameBytes(count, pixels)), BufferSize);
      var k := if numLeds < count then numLeds else count;
      d.ok && Applied(strip, Overlay(before, d.written), numLeds) == pixels[..k] + strip[k..]
  {
    var frame := FrameBytes(count, pixels);
    var d := Base64.Decoded(Base64.Encode(frame), BufferSize);
    assert d == Base64.Decoding(true, frame) by {
      Base64.RoundTrip(frame, BufferSize);
    }
    var raw := Overlay(before, frame);
    FrameLayout(count, pixels, before[|frame|..]);
    AppliedPrefix(strip, raw, numLeds, pixels);
  }

  /** When the first min(numLeds, count) records of `raw` are `pixels`, applying `raw` installs exactly them. */
  lemma AppliedPrefix(strip: seq<Rgb>, raw: seq<u8>, numLeds: nat, pixels: seq<Rgb>)
    requires |raw| == BufferSize && numLeds <= |strip| && numLeds <= MaxStripLeds
    requires Count(raw) <= |pixels| || numLeds <= |pixels|
    requires forall i :: 0 <= i < |pixels| && i < numLeds ==> PixelAt(raw, i) == pixels[i]
    ensures var k := if numLeds < Count(raw) then numLeds else Count(raw);
      Applied(strip, raw, numLeds) == pixels[..k] + strip[k..]
  {
    var k := if numLeds < Count(raw) then numLeds else Count(raw);
    var r := Applied(strip, raw, numLeds);
    var expected := pixels[..k] + strip[k..];
    assert |r| == |expected|;
    forall i | 0 <= i < |r|
      ensures r[i] == expected[i]
    {
      if i < k {
        PixelsFitBuffer(i);
      }
    }
  }

  /**
   * The buffer is not cleared: when the frame declares more pixels than it
   * carries, the next strip entry is taken from the previous contents of
   * the buffer.
   */
  lemma StalePixelReused(strip: seq<Rgb>, before: seq<u8>, numLeds: nat, count: u16, pixels: seq<Rgb>)
    requires |before| == BufferSize && numLeds <= |strip| && numLeds <= MaxStripLeds
    requires |pixels| < count && |pixels| < numLeds
    ensures var d := Base64.Decoded(Base64.Encode(FrameBytes(count, pixels)), BufferSize);
      d.ok && Applied(strip, Overlay(before, d.written), numLeds)[|pixels|] == PixelAt(before, |pixels|)
  {
    var frame := FrameBytes(count, pixels);
    PixelsFitBuffer(|pixels|);
    Base64.RoundTrip(frame, BufferSize);
    var raw := Overlay(before, frame);
    FrameLayout(count, pixels, before[|frame|..]);
    assert PixelOffset(|pixels|) == |frame|;
  }

  /** A decode that writes a single byte leaves the count's high byte from the previous contents. */
  lemma StaleCountByte(before: seq<u8>, b: u8)
    requires |before| == BufferSize
    ensures Count(Overlay(before, [b])) == b as int + 256 * (before[1] as int)
  {
  }
}
