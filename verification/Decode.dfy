/** `decode_u128_value` and the fee decoders. */
module Decode {
  import opened Prelude
  import opened Sequence

  const U128_BYTES := 16

  function Pow256(n: nat): nat {
    if n == 0 then 1 else 256 * Pow256(n - 1)
  }

  function BigEndian(b: seq<byte>): nat {
    if b == [] then 0 else 256 * BigEndian(b[..|b| - 1]) + b[|b| - 1]
  }

  /** The value the decoders read: big-endian, of the first sixteen bytes. */
  function U128Value(b: Bytes): nat {
    BigEndian(if |b| <= U128_BYTES then b else b[..U128_BYTES])
  }

  function Zeros(n: nat): Bytes {
    seq(n, i => 0)
  }

  lemma {:induction false} BigEndianLeadingZeros(n: nat, b: Bytes)
    ensures BigEndian(Zeros(n) + b) == BigEndian(b)
    decreases |b|, n
  {
    if b != [] {
      assert (Zeros(n) + b)[..n + |b| - 1] == Zeros(n) + b[..|b| - 1];
      BigEndianLeadingZeros(n, b[..|b| - 1]);
    } else if n > 0 {
      assert (Zeros(n) + b)[..n - 1] == Zeros(n - 1) + b;
      BigEndianLeadingZeros(n - 1, b);
    }
  }

  lemma {:induction false} BigEndianBound(b: Bytes)
    ensures BigEndian(b) < Pow256(|b|)
  {
    if b == [] {
    } else {
      BigEndianBound(b[..|b| - 1]);
    }
  }

  /** Every decoded value fits sixteen bytes. */
  lemma U128Bound(b: Bytes)
    ensures U128Value(b) < Pow256(U128_BYTES)
  {
    hide BigEndian, Pow256;
    var used := if |b| <= U128_BYTES then b else b[..U128_BYTES];
    BigEndianLeadingZeros(U128_BYTES - |used|, used);
    BigEndianBound(Zeros(U128_BYTES - |used|) + used);
  }

  method DecodeU128Value(bytes: Bytes) returns (value: nat)
    ensures value == U128Value(bytes)
    ensures value < Pow256(U128_BYTES)
  {
    hide BigEndian, Pow256;
    U128Bound(bytes);
    if |bytes| == U128_BYTES {
      return BigEndian(bytes);
    }
    var padded := new byte[U128_BYTES](i => 0);
    var len := Min(|bytes|, U128_BYTES);
    forall i | 0 <= i < len {
      padded[U128_BYTES - len + i] := bytes[i];
    }
    assert |bytes| < U128_BYTES ==> bytes[..len] == bytes;
    assert padded[..] == Zeros(U128_BYTES - len) + bytes[..len];
    BigEndianLeadingZeros(U128_BYTES - len, bytes[..len]);
    return BigEndian(padded[..]);
  }

  /** The encoding PostgreSQL holds: `n` big-endian bytes. */
  function Encode(v: nat, n: nat): (b: Bytes)
    ensures |b| == n
  {
    if n == 0 then [] else Encode(v / 256, n - 1) + [v % 256]
  }

  lemma {:induction false} BigEndianInvertsEncode(v: nat, n: nat)
    requires v < Pow256(n)
    ensures BigEndian(Encode(v, n)) == v
  {
    if n == 0 {
    } else {
      BigEndianInvertsEncode(v / 256, n - 1);
      assert Encode(v, n)[..n - 1] == Encode(v / 256, n - 1);
    }
  }

  /**
   * Decoding inverts big-endian encoding in any width up to sixteen bytes, so leading zero bytes do not
   * matter.
   */
  lemma DecodeInvertsEncode(v: nat, n: nat)
    requires n <= U128_BYTES && v < Pow256(n)
    ensures U128Value(Encode(v, n)) == v
  {
    BigEndianInvertsEncode(v, n);
  }

  /** `decode_fee_string`: an absent or empty column reads as zero. */
  function FeeString(fees: Option<Bytes>): string {
    if fees.Some? && fees.value != [] then PrintInt(U128Value(fees.value)) else "0"
  }

  /** `decode_fee_option`: an absent column stays absent. */
  function FeeOption(fees: Option<Bytes>): Option<string> {
    if fees.Some? then Some(FeeString(fees)) else None
  }
}
