/** Wire-level vocabulary of the GSIOC bus: reserved bytes, the address
    frame, the end-of-message bit, and the char/byte conversions the driver
    performs when it puts characters on the wire.

    Bytes are integers in 0..255; the two bit operations the driver uses
    are written arithmetically (`x & 0x3F` is `x % 64`, setting or clearing
    bit 7 is adding or subtracting 128), and `MaskIsArithmetic` and
    `ClearIsArithmetic` check that reading on 8-bit vectors. */
module Bus {

  type Byte = b: int | 0 <= b < 256

  /** Universal deselect, written after a scan. */
  const Disconnect: Byte := 0xFF
  /** A device asking the master to re-confirm the address it just heard. */
  const AddressQuery: Byte := 0xFE
  /** Acknowledgement of one received chunk of an immediate reply. */
  const Acknowledge: Byte := 0x06
  const LineFeed: Byte := 0x0A
  const CarriageReturn: Byte := 0x0D
  /** Bit 7: marks an address frame, and the last byte of a reply. */
  const LastCharacterBit: Byte := 0x80

  /** `(x & 0x3F) | 0x80` on a byte is `x % 64 + 128`. */
  lemma MaskIsArithmetic(x: bv8)
    ensures (x & 0x3F) | 0x80 == x % 64 + 128
  {
  }

  /** `x & ~0x80` on a byte above 127 is `x - 128`. */
  lemma ClearIsArithmetic(x: bv8)
    requires x > 127
    ensures x & !0x80 == x - 128
  {
  }

  /** True when bit 7 of `b` is set. */
  predicate HasLastCharacterBit(b: Byte) {
    b >= LastCharacterBit
  }

  /** The device address an address frame or a caller's byte carries: its low six bits. */
  function AddressOf(b: Byte): (a: Byte)
    ensures a < 64
  {
    b % 64
  }

  /** The byte that selects device `id`: the low six bits of `id` with bit 7 set. */
  function WireAddress(id: Byte): (w: Byte)
    ensures HasLastCharacterBit(w)
    ensures 0x80 <= w <= 0xBF
    ensures AddressOf(w) == AddressOf(id)
  {
    AddressOf(id) + LastCharacterBit
  }

  /** Only the low six bits are significant: `id` and `id + 64` (as a byte)
      select the same device. */
  lemma WireAddressAliases(id: Byte)
    ensures WireAddress((id + 64) % 256) == WireAddress(id)
    ensures WireAddress(id) == WireAddress(AddressOf(id))
  {
  }

  /** Encoding an address of the 6-bit space and decoding it gives it back;
      distinct addresses have distinct frames. */
  lemma WireAddressRoundTrip(a: Byte, b: Byte)
    requires a < 64 && b < 64
    ensures AddressOf(WireAddress(a)) == a
    ensures WireAddress(a) == WireAddress(b) ==> a == b
  {
  }

  /** The end-of-message marker removed from the final byte of a reply. */
  function ClearLastCharacterBit(b: Byte): (r: Byte)
    ensures !HasLastCharacterBit(r)
    ensures !HasLastCharacterBit(b) ==> r == b
    ensures HasLastCharacterBit(b) ==> r + LastCharacterBit == b
  {
    if b > 127 then b - LastCharacterBit else b
  }

  /** Characters that Convert.ToByte accepts. */
  predicate IsNarrow(c: char) {
    c as int < 256
  }

  function ToByte(c: char): (b: Byte)
    requires IsNarrow(c)
    ensures b == c as int
  {
    c as int
  }

  function ToChar(b: Byte): (c: char)
    ensures IsNarrow(c) && ToByte(c) == b
  {
    b as char
  }

  /** The bytes written for a string whose characters all fit in a byte. */
  function Bytes(s: string): (r: seq<Byte>)
    requires forall i | 0 <= i < |s| :: IsNarrow(s[i])
    ensures |r| == |s|
    ensures forall i | 0 <= i < |s| :: r[i] == s[i] as int
  {
    seq(|s|, i requires 0 <= i < |s| => ToByte(s[i]))
  }

  /** The text of a reply, one character per byte with the byte's code. */
  function Text(bs: seq<Byte>): (s: string)
    ensures |s| == |bs|
    ensures forall i | 0 <= i < |bs| :: s[i] as int == bs[i]
  {
    seq(|bs|, i requires 0 <= i < |bs| => ToChar(bs[i]))
  }

  /** Writing the text of a reply puts the same bytes back on the wire. */
  lemma BytesOfText(bs: seq<Byte>)
    ensures forall i | 0 <= i < |Text(bs)| :: IsNarrow(Text(bs)[i])
    ensures Bytes(Text(bs)) == bs
  {
  }

  /** char.IsWhiteSpace: the Unicode space, line and paragraph separators,
      U+0009..U+000D and U+0085. */
  predicate IsWhiteSpace(c: char) {
    var n := c as int;
    (0x09 <= n <= 0x0D) || n == 0x20 || n == 0x85 || n == 0xA0 || n == 0x1680 ||
    (0x2000 <= n <= 0x200A) || n == 0x2028 || n == 0x2029 || n == 0x202F ||
    n == 0x205F || n == 0x3000
  }
}
