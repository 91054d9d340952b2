/** The Fiat-Shamir seed of the verifier: BLAKE2b (64-byte output,
    personalisation "Halo2-Verify-Key") over the length-framed Debug
    rendering of the verifying key's pinned description, reduced into the
    scalar field. The hash and the reduction are library code; the framing
    of the hash input is modelled exactly. */
module Seed {
  import opened Bytes
  import opened Wrappers

  /** The hash output length in bytes. */
  const HASH_LENGTH: nat := 64

  /** The personalisation tag "Halo2-Verify-Key" as ASCII bytes. */
  const PERSONALIZATION: seq<byte> :=
    [72, 97, 108, 111, 50, 45, 86, 101, 114, 105, 102, 121, 45, 75, 101, 121]

  /** The bytes fed to the hasher: the 8-byte little-endian length of the
      pinned string (`s.len() as u64`), then the string's bytes. */
  function HashInput(pinned: seq<byte>): (h: seq<byte>)
    ensures |h| == 8 + |pinned| && h[8..] == pinned
    ensures FromBytesLe(h[..8]) == |pinned| % Pow256(8)
  {
    FromToBytesLe(|pinned|, 8);
    var h := ToBytesLe(|pinned|, 8) + pinned;
    assert h[..8] == ToBytesLe(|pinned|, 8);
    h
  }

  /** Reading a framed hash input back: the length header must match the
      number of bytes that follow it. */
  function ParseHashInput(h: seq<byte>): (r: Option<seq<byte>>)
    ensures r.Some? <==> |h| >= 8 && FromBytesLe(h[..8]) == |h| - 8
    ensures r.Some? ==> |h| == 8 + |r.value| && h[8..] == r.value
  {
    if |h| < 8 then None
    else if FromBytesLe(h[..8]) == |h| - 8 then Some(h[8..])
    else None
  }

  /** Every string shorter than 2^64 bytes (every Rust string) is read back
      from its framing. */
  lemma HashInputRoundTrip(pinned: seq<byte>)
    requires |pinned| < Pow256(8)
    ensures ParseHashInput(HashInput(pinned)) == Some(pinned)
  {
    DivModUnique(|pinned|, Pow256(8), 0, |pinned|);
  }

  /** Whatever the parser accepts is the framing of what it returns. */
  lemma ParseHashInputSound(h: seq<byte>, pinned: seq<byte>)
    requires ParseHashInput(h) == Some(pinned)
    ensures HashInput(pinned) == h
  {
    ToFromBytesLe(h[..8]);
    assert h == h[..8] + h[8..];
  }

  /** Distinct pinned strings give distinct hash inputs. */
  lemma HashInputInjective(a: seq<byte>, b: seq<byte>)
    requires HashInput(a) == HashInput(b)
    ensures a == b
  {
    assert a == HashInput(a)[8..];
  }

  /** The incremental BLAKE2b state of the export: fixed output length and
      personalisation, and the bytes absorbed so far. */
  class Blake2bState {
    const hashLength: nat
    const personal: seq<byte>
    var absorbed: seq<byte>

    /** `blake2b_simd::Params::new().hash_length(..).personal(..).to_state()` */
    constructor (hashLength: nat, personal: seq<byte>)
      ensures this.hashLength == hashLength && this.personal == personal
      ensures absorbed == []
    {
      this.hashLength := hashLength;
      this.personal := personal;
      absorbed := [];
    }

    /** `update`: append bytes to the message. */
    method Update(data: seq<byte>)
      modifies this
      ensures absorbed == old(absorbed) + data
    {
      absorbed := absorbed + data;
    }

    /** `finalize`: the digest of everything absorbed, by the given BLAKE2b
        with the state's own output length and personalisation. */
    function Finalize(blake2b: (nat, seq<byte>, seq<byte>) -> seq<byte>): (digest: seq<byte>)
      reads this
      ensures digest == blake2b(hashLength, personal, absorbed)
    {
      blake2b(hashLength, personal, absorbed)
    }
  }

  /** The seed scalar: a function of the pinned description alone, the
      wide reduction of the 64-byte digest, personalised with the tag, of the
      8-byte length header followed by the pinned bytes. */
  function InitScalar<Fr>(blake2b: (nat, seq<byte>, seq<byte>) -> seq<byte>,
                          fromBytesWide: seq<byte> -> Fr, pinned: seq<byte>): (s: Fr)
    ensures s == fromBytesWide(blake2b(64, PERSONALIZATION, ToBytesLe(|pinned|, 8) + pinned))
  {
    fromBytesWide(blake2b(HASH_LENGTH, PERSONALIZATION, HashInput(pinned)))
  }

  /** The hashing steps of `solidity_render`: set up the hasher, feed it the
      length header and then the pinned bytes, reduce the digest. */
  method DeriveInitScalar<Fr>(blake2b: (nat, seq<byte>, seq<byte>) -> seq<byte>,
                              fromBytesWide: seq<byte> -> Fr, pinned: seq<byte>)
    returns (scalar: Fr)
    ensures scalar == InitScalar(blake2b, fromBytesWide, pinned)
  {
    var hasher := new Blake2bState(HASH_LENGTH, PERSONALIZATION);
    hasher.Update(ToBytesLe(|pinned|, 8));
    hasher.Update(pinned);
    assert hasher.absorbed == HashInput(pinned);
    scalar := fromBytesWide(hasher.Finalize(blake2b));
  }
}
