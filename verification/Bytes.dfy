/** Byte strings and big-endian numbers (keys.ts; numberToBytes and bytesToBigInt as used in announce.ts and discovery.ts). */
module Bytes {
  import opened Arithmetic
  import opened Seqs

  type byte = n: nat | n < 256

  function Pow256(length: nat): (p: nat)
    ensures p > 0
  {
    if length == 0 then 1 else 256 * Pow256(length - 1)
  }

  function ToBytes(n: nat, length: nat): (bs: seq<byte>)
    ensures |bs| == length
  {
    if length == 0 then [] else ToBytes(n / 256, length - 1) + [n % 256]
  }

  function FromBytes(bs: seq<byte>): nat {
    if bs == [] then 0 else 256 * FromBytes(bs[..|bs| - 1]) + bs[|bs| - 1]
  }

  /** Decoding gives the number back, up to the width of the encoding. */
  lemma {:induction false} DecodeEncode(n: nat, length: nat)
    ensures FromBytes(ToBytes(n, length)) == n % Pow256(length)
  {
    if length > 0 {
      DecodeEncode(n / 256, length - 1);
      var bs := ToBytes(n, length);
      assert bs[..length - 1] == ToBytes(n / 256, length - 1);
      ModuloSplit(n, Pow256(length - 1));
    }
  }

  /** Encoding gives the bytes back. */
  lemma {:induction false} EncodeDecode(bs: seq<byte>)
    ensures ToBytes(FromBytes(bs), |bs|) == bs
    ensures FromBytes(bs) < Pow256(|bs|)
  {
    if bs != [] {
      var front := bs[..|bs| - 1];
      EncodeDecode(front);
      assert FromBytes(bs) / 256 == FromBytes(front) && FromBytes(bs) % 256 == bs[|bs| - 1];
    }
  }

  method BytesToBigInt(bytes: seq<byte>) returns (result: nat)
    ensures result == FromBytes(bytes)
  {
    result := 0;
    for i := 0 to |bytes|
      invariant result == FromBytes(bytes[..i])
    {
      assert bytes[..i + 1][..i] == bytes[..i];
      result := result * 256 + bytes[i];
    }
    assert bytes[..|bytes|] == bytes;
  }

  /** Writes the low byte at the end, shifts, and moves towards the front. */
  method BigIntToBytes(number: nat, length: nat) returns (bytes: array<byte>)
    ensures fresh(bytes) && bytes[..] == ToBytes(number, length)
  {
    bytes := new byte[length](_ => 0);
    var n, i := number, length;
    while i > 0
      invariant 0 <= i <= length
      invariant ToBytes(number, length) == ToBytes(n, i) + bytes[i..]
    {
      ghost var done := bytes[i..];
      i := i - 1;
      bytes[i] := n % 256;
      assert bytes[i..] == [n % 256] + done;
      ConcatAssociates(ToBytes(n / 256, i), [n % 256], done);
      n := n / 256;
    }
    assert bytes[0..] == bytes[..];
  }
}
