/**
  Octets and the little-endian integer codes of Python's `struct` module that
  the writer uses: 'B' (unsigned 1 byte), 'H' (unsigned 2 bytes), 'L'
  (unsigned 4 bytes) and 'h' (two's-complement 2 bytes), all in standard size
  because every format string starts with '<'. Packing a value that does not
  fit raises `struct.error`; here that is a `None`.
 */
module Bytes {
  import opened Results

  /** One octet of the output file. */
  type byte = b: int | 0 <= b < 256

  /** The number of distinct values an n-byte field can hold. */
  function Pow256(n: nat): (r: nat)
    ensures r >= 1
    ensures n >= 1 ==> r >= 256 && r % 2 == 0
  {
    if n == 0 then 1 else 256 * Pow256(n - 1)
  }

  /** The field widths the writer uses. */
  lemma Pow256Widths()
    ensures Pow256(1) == 0x100 && Pow256(2) == 0x1_0000 && Pow256(4) == 0x1_0000_0000
  {
    assert Pow256(2) == 256 * Pow256(1);
    assert Pow256(4) == 256 * Pow256(3) && Pow256(3) == 256 * Pow256(2);
  }

  /** One more item of width `a` adds `a` to the total width. */
  lemma MulSucc(n: nat, a: int)
    ensures (n + 1) * a == n * a + a
  {
  }

  /** The `width` low-order bytes of `v`, least significant first. */
  function ToLE(v: nat, width: nat): (r: seq<byte>)
    ensures |r| == width
  {
    if width == 0 then [] else [(v % 256) as byte] + ToLE(v / 256, width - 1)
  }

  /** The unsigned integer whose little-endian encoding is `b`. */
  function FromLE(b: seq<byte>): (r: nat)
    ensures r < Pow256(|b|)
  {
    if |b| == 0 then 0 else b[0] + 256 * FromLE(b[1..])
  }

  /** The signed integer whose two's-complement little-endian encoding is `b`. */
  function FromLESigned(b: seq<byte>): (r: int)
    requires |b| >= 1
    ensures -(Pow256(|b|) as int) / 2 <= r < Pow256(|b|) / 2
  {
    var u := FromLE(b);
    if u >= Pow256(|b|) / 2 then u - Pow256(|b|) else u
  }

  /** Decoding an encoding recovers every value that fits the width. */
  lemma {:induction false} FromToLE(v: nat, width: nat)
    requires v < Pow256(width)
    ensures FromLE(ToLE(v, width)) == v
  {
    if width > 0 {
      FromToLE(v / 256, width - 1);
      assert ToLE(v, width)[1..] == ToLE(v / 256, width - 1);
    }
  }

  /** Encoding a decoded value gives back the same bytes: the code is a bijection. */
  lemma {:induction false} ToFromLE(b: seq<byte>)
    ensures ToLE(FromLE(b), |b|) == b
  {
    if |b| > 0 {
      ToFromLE(b[1..]);
      var v, rest := FromLE(b), FromLE(b[1..]);
      DivModByte(v, b[0], rest);
      assert ToLE(v, |b|) == [b[0]] + ToLE(rest, |b| - 1);
      assert b == [b[0]] + b[1..];
    }
  }

  /** Byte strings concatenate associatively. */
  lemma ConcatAssoc(a: seq<byte>, b: seq<byte>, c: seq<byte>)
    ensures a + b + c == a + (b + c)
  {
    assert forall i :: 0 <= i < |a| + |b| + |c| ==> (a + b + c)[i] == (a + (b + c))[i];
  }

  /** The low byte and the remaining value of `lo + 256 * hi`. */
  lemma DivModByte(v: int, lo: int, hi: int)
    requires 0 <= lo < 256 && v == lo + 256 * hi
    ensures v % 256 == lo && v / 256 == hi
  {
  }

  /** struct.pack of an unsigned code ('B', 'H', 'L') of the given width. */
  function PackUnsigned(v: int, width: nat): (r: Option<seq<byte>>)
    ensures r.Some? <==> 0 <= v < Pow256(width)
    ensures r.Some? ==> |r.value| == width && FromLE(r.value) == v
  {
    if 0 <= v < Pow256(width) then
      FromToLE(v, width);
      Some(ToLE(v, width))
    else
      None
  }

  /** struct.pack of a signed two's-complement code ('h') of the given width. */
  function PackSigned(v: int, width: nat): (r: Option<seq<byte>>)
    requires width >= 1
    ensures r.Some? <==> -(Pow256(width) as int) / 2 <= v < Pow256(width) / 2
    ensures r.Some? ==> |r.value| == width && FromLESigned(r.value) == v
  {
    if -(Pow256(width) as int) / 2 <= v < Pow256(width) / 2 then
      var u := if v < 0 then v + Pow256(width) else v;
      FromToLE(u, width);
      Some(ToLE(u, width))
    else
      None
  }

  /** The octets of an ASCII tag such as "RIFF" (struct code '4s'). */
  function Ascii(s: string): (r: seq<byte>)
    requires forall i :: 0 <= i < |s| ==> s[i] as int < 256
    ensures |r| == |s|
    ensures forall i :: 0 <= i < |s| ==> r[i] == s[i] as int
  {
    if |s| == 0 then [] else [s[0] as int as byte] + Ascii(s[1..])
  }
}
