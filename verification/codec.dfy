/** The checksum codec: one trailing check byte per frame, and the
    fixed-width big-endian encoding that Python's int.to_bytes performs. */
module Codec {
  import opened Results

  /** XOR of all bytes, folded from the left as the source's loop does. */
  function XorAll(s: seq<Byte>): Byte {
    if s == [] then 0 else XorAll(s[..|s| - 1]) ^ s[|s| - 1]
  }

  /** The check byte: the complement of a lone byte, otherwise the XOR of all bytes. */
  function Checksum(data: seq<Byte>): Byte {
    if |data| == 1 then !data[0] else XorAll(data)
  }

  /** A frame as it goes on the wire: the data followed by its check byte. */
  function Framed(data: seq<Byte>): seq<Byte> {
    data + [Checksum(data)]
  }

  lemma XorAllSnoc(s: seq<Byte>, x: Byte)
    ensures XorAll(s + [x]) == XorAll(s) ^ x
  {
    assert (s + [x])[..|s|] == s;
  }

  /** The checksum of a four-byte frame written out. */
  lemma XorAll4(w: Byte, x: Byte, y: Byte, z: Byte)
    ensures XorAll([w, x, y, z]) == w ^ x ^ y ^ z
  {
    XorAllSnoc([], w);
    assert [] + [w] == [w];
    XorAllSnoc([w], x);
    assert [w] + [x] == [w, x];
    XorAllSnoc([w, x], y);
    assert [w, x] + [y] == [w, x, y];
    XorAllSnoc([w, x, y], z);
    assert [w, x, y] + [z] == [w, x, y, z];
  }

  /** A four-byte frame is checked by the XOR of its four bytes. */
  lemma FramedFour(a: seq<Byte>)
    requires |a| == 4
    ensures Framed(a) == a + [a[0] ^ a[1] ^ a[2] ^ a[3]]
  {
    var w, x, y, z := a[0], a[1], a[2], a[3];
    assert a == [w, x, y, z];
    assert XorAll(a) == w ^ x ^ y ^ z by { XorAll4(w, x, y, z); }
  }

  lemma {:induction false} XorAllConcat(a: seq<Byte>, b: seq<Byte>)
    ensures XorAll(a + b) == XorAll(a) ^ XorAll(b)
  {
    if b == [] {
      assert a + b == a;
    } else {
      var b' := b[..|b| - 1];
      assert (a + b)[..|a + b| - 1] == a + b';
      XorAllConcat(a, b');
    }
  }

  /** A multi-byte (or empty) frame XORs to zero including its check byte; a
      one-byte frame XORs to 0xFF, since its check byte is the complement. */
  lemma FramedXor(data: seq<Byte>)
    ensures |Framed(data)| == |data| + 1 && Framed(data)[..|data|] == data
    ensures |data| != 1 ==> XorAll(Framed(data)) == 0
    ensures |data| == 1 ==> Framed(data)[1] == !data[0] && XorAll(Framed(data)) == 0xFF
  {
    XorAllConcat(data, [Checksum(data)]);
    assert XorAll([Checksum(data)]) == Checksum(data) by {
      assert [Checksum(data)][..0] == [];
    }
    if |data| == 1 {
      assert XorAll(data) == data[0] by {
        assert data[..0] == [];
      }
    }
  }

  /** _append_checksum: the loop `cs ^= x` is checked against XorAll. */
  method AppendChecksum(data: seq<Byte>) returns (frame: seq<Byte>)
    ensures frame == Framed(data)
    ensures |frame| == |data| + 1 && frame[..|data|] == data
    ensures |data| == 1 ==> frame[1] == !data[0]
    ensures |data| != 1 ==> XorAll(frame) == 0
    ensures data == [] ==> frame == [0x00]
  {
    var cs: Byte := 0;
    if |data| == 1 {
      cs := !data[0];
    } else {
      for i := 0 to |data|
        invariant cs == XorAll(data[..i])
      {
        assert data[..i + 1][..i] == data[..i];
        cs := cs ^ data[i];
      }
      assert data[..|data|] == data;
    }
    frame := data + [cs];
    FramedXor(data);
  }

  /** Frames worked out byte by byte: a lone command byte is followed by its
      complement, three bytes by their XOR, no bytes by zero. */
  lemma FramedExamples()
    ensures Framed([0x11]) == [0x11, 0xEE]
    ensures Framed([0x01, 0x02, 0x03]) == [0x01, 0x02, 0x03, 0x00]
    ensures Framed([]) == [0x00]
  {
    var a: seq<Byte> := [0x01];
    var b: seq<Byte> := [0x01, 0x02];
    var c: seq<Byte> := [0x01, 0x02, 0x03];
    XorAllSnoc([], 0x01);
    assert [] + [0x01] == a;
    XorAllSnoc(a, 0x02);
    assert a + [0x02] == b;
    XorAllSnoc(b, 0x03);
    assert b + [0x03] == c;
  }

  /** 256 to the power n: the number of values n bytes can hold. */
  function Pow256(n: nat): nat {
    if n == 0 then 1 else 256 * Pow256(n - 1)
  }

  /** The unsigned value of a big-endian byte string. */
  function FromBytesBig(b: seq<Byte>): nat {
    if b == [] then 0 else 256 * FromBytesBig(b[..|b| - 1]) + b[|b| - 1] as nat
  }

  /** Euclidean division by 256 splits off the low byte. */
  lemma DivBound(value: int, p: nat)
    requires 0 <= value
    ensures value / 256 < p <==> value < 256 * p
    ensures value == 256 * (value / 256) + value % 256
  {
  }

  /** Appending a byte shifts the value up by one byte and adds it. */
  lemma FromBytesBigSnoc(high: seq<Byte>, low: Byte)
    ensures FromBytesBig(high + [low]) == 256 * FromBytesBig(high) + low as nat
  {
    var b := high + [low];
    assert b[..|b| - 1] == high;
  }

  /** For a non-negative value, the high bytes fit one byte less than the
      whole, and appending the low byte to them gives the value back. */
  lemma AppendLowByte(value: int, length: nat, high: seq<Byte>)
    requires 0 <= value && 0 < length
    requires FromBytesBig(high) == value / 256
    ensures value / 256 < Pow256(length - 1) <==> value < Pow256(length)
    ensures FromBytesBig(high + [(value % 256) as Byte]) == value
  {
    assert Pow256(length) == 256 * Pow256(length - 1);
    DivBound(value, Pow256(length - 1));
    ByteRoundTrip(value % 256);
    FromBytesBigSnoc(high, (value % 256) as Byte);
  }

  /** int.to_bytes(length, "big") on an unsigned target: None where Python
      raises OverflowError. */
  function ToBytesBig(value: int, length: nat): Option<seq<Byte>>
    decreases length
  {
    if value < 0 then None
    else if length == 0 then (if value == 0 then Some([]) else None)
    else
      match ToBytesBig(value / 256, length - 1)
      case None => None
      case Some(high) => Some(high + [(value % 256) as Byte])
  }

  /** to_bytes overflows exactly for a negative value or one too wide for
      the field, and otherwise gives `length` bytes that read back as the
      value. */
  lemma {:induction false} ToBytesBigSpec(value: int, length: nat)
    ensures var r := ToBytesBig(value, length);
      && (r.Some? <==> 0 <= value < Pow256(length))
      && (r.Some? ==> |r.value| == length && FromBytesBig(r.value) == value)
    decreases length
  {
    if value >= 0 && length > 0 {
      ToBytesBigSpec(value / 256, length - 1);
      var high := ToBytesBig(value / 256, length - 1);
      if high.Some? {
        AppendLowByte(value, length, high.value);
      } else {
        DivBound(value, Pow256(length - 1));
      }
    }
  }
}
