/** The arithmetic of one MCP3008 read (single-ended mode, section 6.1 of
    the Microchip MCP3004/3008 datasheet): the three-byte request a read
    sends over SPI and the 10-bit value decoded from the three bytes that
    come back. The SPI device itself is not part of this model. */
module Mcp3008 {
  import opened Bytes

  /** The request of `read(channel)`: a start bit, then the
      single-ended flag and the channel number in the high nibble of the
      second byte, then a don't-care byte clocking out the result. Python's
      `<<` on an integer is multiplication by a power of two. */
  function RequestFrame(channel: int): (frame: seq<int>)
    ensures |frame| == 3 && frame[0] == 1 && frame[2] == 0
    ensures 0 <= channel < 8 ==>
              && 0 <= frame[1] < 256
              && frame[1] as bv8 == 0x80 | ((channel as bv8) << 4)
  {
    [1, (8 + channel) * 16, 0]
  }

  /** For the eight channels, the single-ended flag is set and the
      channel is what the second byte's bits 4..6 carry, and only they. */
  lemma {:induction false} FrameSelectsChannel(channel: int)
    requires 0 <= channel < 8
    ensures RequestFrame(channel)[1] / 128 == 1
    ensures RequestFrame(channel)[1] / 16 % 8 == channel
    ensures RequestFrame(channel)[1] % 16 == 0
  {
  }

  /** Distinct channels are asked for with distinct frames. */
  lemma FrameInjective(c: int, d: int)
    requires c != d
    ensures RequestFrame(c) != RequestFrame(d)
  {
    assert RequestFrame(c)[1] != RequestFrame(d)[1];
  }

  /** `read`'s decoding of the response: the two low bits of the second
      byte are bits 9 and 8 of the result, the third byte its bits 7..0. */
  function Decode(response: seq<Byte>): (v: nat)
    requires |response| >= 3
    ensures v < 1024
    ensures v / 256 == response[1] % 4 && v % 256 == response[2]
  {
    MaskIsRemainder(response[1]);
    ((response[1] as bv8 & 3) as int) * 256 + response[2]
  }

  /** Masking with 3 keeps the remainder modulo 4. */
  lemma MaskIsRemainder(b: Byte)
    ensures ((b as bv8) & 3) as int == b % 4
  {
    var r := b % 4;
    if r == 0 { assert (b as bv8) & 3 == 0; }
    else if r == 1 { assert (b as bv8) & 3 == 1; }
    else if r == 2 { assert (b as bv8) & 3 == 2; }
    else { assert (b as bv8) & 3 == 3; }
  }

  /** The first byte and bits 2..7 of the second byte do not affect the value. */
  lemma DecodeIgnoresOtherBits(r: seq<Byte>, s: seq<Byte>)
    requires |r| >= 3 && |s| >= 3
    requires r[1] % 4 == s[1] % 4 && r[2] == s[2]
    ensures Decode(r) == Decode(s)
  {
    var v, w := Decode(r), Decode(s);
    assert v == v / 256 * 256 + v % 256;
    assert w == w / 256 * 256 + w % 256;
  }

  /** Every value in 0..1023 is decoded from the response that carries it,
      whatever the first byte: the decoder is onto the 10-bit range. */
  lemma DecodeOnto(v: nat, x: Byte)
    requires v < 1024
    ensures Decode([x, v / 256, v % 256]) == v
  {
    var w := Decode([x, v / 256, v % 256]);
    assert w == w / 256 * 256 + w % 256;
    assert v == v / 256 * 256 + v % 256;
  }
}
