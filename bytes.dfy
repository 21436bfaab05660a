/** Bytes as held by a `Uint8Array`, and the all-zero predicate used by the erasure properties. */
module Bytes {

  newtype byte = x: int | 0 <= x < 0x100

  /** `n` zero bytes. */
  function Zeros(n: nat): (r: seq<byte>)
    ensures |r| == n
    ensures forall i :: 0 <= i < n ==> r[i] == 0
  {
    seq(n, _ => 0)
  }

  predicate AllZero(s: seq<byte>)
  {
    forall i :: 0 <= i < |s| ==> s[i] == 0
  }

  /** The all-zero sequences of length `n` are exactly `Zeros(n)`. */
  lemma AllZeroIsZeros(s: seq<byte>)
    ensures AllZero(s) <==> s == Zeros(|s|)
  {
    if AllZero(s) {
      assert forall i :: 0 <= i < |s| ==> s[i] == Zeros(|s|)[i];
    }
  }
}
