/**
 * Unsigned integers packed little-endian into byte fields.
 *
 * The event file stores its integers in fields whose widths (2, 4, 6 and 10
 * bytes) are not all native integer widths; the decoder pads a field with zero
 * high-order bytes up to a native width and reads that. Byte order is fixed
 * to little-endian here (the source relies on the host's native order).
 */
module Bytes {
  type Byte = b: int | 0 <= b < 256

  /** 256 to the power n: one more than the largest value an n-byte field holds. */
  function Pow256(n: nat): (r: nat)
    ensures r >= 1
  {
    if n == 0 then 1 else 256 * Pow256(n - 1)
  }

  /** The unsigned value of `bs`, least significant byte first. */
  function LittleEndian(bs: seq<Byte>): nat
  {
    if |bs| == 0 then 0 else bs[0] + 256 * LittleEndian(bs[1..])
  }

  /** k zero bytes, as appended by padding a field on the right. */
  function Zeros(k: nat): (z: seq<Byte>)
    ensures |z| == k && forall i :: 0 <= i < k ==> z[i] == 0
  {
    if k == 0 then [] else [0] + Zeros(k - 1)
  }

  /**
   * Reads a field of |bs| bytes as an unsigned integer of `width` bytes:
   * the field is padded on the right with zero bytes and the padded bytes
   * are read little-endian.
   */
  function Widen(bs: seq<Byte>, width: nat): (x: nat)
    requires |bs| <= width
    ensures x == LittleEndian(bs) && x < Pow256(|bs|)
  {
    ZeroPadding(bs, width - |bs|);
    LittleEndianBound(bs);
    LittleEndian(bs + Zeros(width - |bs|))
  }

  /** The width-n little-endian encoding of x. */
  function ToLittleEndian(x: nat, n: nat): (bs: seq<Byte>)
    requires x < Pow256(n)
    ensures |bs| == n
  {
    if n == 0 then [] else [x % 256] + ToLittleEndian(x / 256, n - 1)
  }

  /** An n-byte field holds values below 256^n. */
  lemma {:induction false} LittleEndianBound(bs: seq<Byte>)
    ensures LittleEndian(bs) < Pow256(|bs|)
  {
    if |bs| > 0 {
      LittleEndianBound(bs[1..]);
    }
  }

  /** Zero high-order bytes do not change the value of a field. */
  lemma {:induction false} ZeroPadding(bs: seq<Byte>, k: nat)
    ensures LittleEndian(bs + Zeros(k)) == LittleEndian(bs)
  {
    if |bs| == 0 {
      ZerosValue(k);
      assert bs + Zeros(k) == Zeros(k);
    } else {
      assert (bs + Zeros(k))[1..] == bs[1..] + Zeros(k);
      ZeroPadding(bs[1..], k);
    }
  }

  /** A field of zero bytes reads as 0. */
  lemma {:induction false} ZerosValue(k: nat)
    ensures LittleEndian(Zeros(k)) == 0
  {
    if k > 0 {
      assert Zeros(k)[1..] == Zeros(k - 1);
      ZerosValue(k - 1);
    }
  }

  /** Decoding an encoded value gives the value back. */
  lemma {:induction false} DecodeEncode(x: nat, n: nat)
    requires x < Pow256(n)
    ensures LittleEndian(ToLittleEndian(x, n)) == x
  {
    if n > 0 {
      DecodeEncode(x / 256, n - 1);
      assert ToLittleEndian(x, n)[1..] == ToLittleEndian(x / 256, n - 1);
    }
  }

  /** Encoding a decoded field at its own width gives the field back. */
  lemma {:induction false} EncodeDecode(bs: seq<Byte>)
    ensures LittleEndian(bs) < Pow256(|bs|)
    ensures ToLittleEndian(LittleEndian(bs), |bs|) == bs
  {
    LittleEndianBound(bs);
    if |bs| > 0 {
      var x := LittleEndian(bs);
      assert x % 256 == bs[0] && x / 256 == LittleEndian(bs[1..]);
      EncodeDecode(bs[1..]);
    }
  }
}
