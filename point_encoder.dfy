/** The point encoder of `solidity_render`: G2 coordinates in the order of
    the EVM pairing precompile (EIP-197) and G1 Lagrange commitments as
    decimal coordinate pairs. */
module PointEncoder {
  import opened Bytes
  import opened Wrappers
  import opened Decimal
  import opened Curve

  /** `g2field_to_bn`: the serialisation of an F_p^2 element read as two
      little-endian halves, the SECOND half first. */
  function G2FieldToBn(bytes: seq<byte>): (c: (nat, nat))
    requires |bytes| >= 64
    ensures c.0 < Pow256(32) && c.1 < Pow256(32)
  {
    (FromBytesLe(bytes[32..64]), FromBytesLe(bytes[..32]))
  }

  /** The native 64-byte layout of an F_p^2 element `c0 + c1 * i`: `c0` then
      `c1`, each as 32 little-endian bytes. */
  function NativeFq2Bytes(c0: nat, c1: nat): (b: seq<byte>)
    ensures |b| == 64
  {
    ToBytesLe(c0, 32) + ToBytesLe(c1, 32)
  }

  /** Both components fit in 256 bits, and together they are the whole
      64-byte value with the first component as the HIGH half: nothing is
      lost by the swap. */
  lemma G2FieldToBnSplit(bytes: seq<byte>)
    requires |bytes| >= 64
    ensures var c := G2FieldToBn(bytes);
      && c.0 < Pow256(32) && c.1 < Pow256(32)
      && FromBytesLe(bytes[..64]) == c.1 + Pow256(32) * c.0
  {
    assert bytes[..64] == bytes[..32] + bytes[32..64];
    FromBytesLeAppend(bytes[..32], bytes[32..64]);
  }

  /** EIP-197 order: for an element `c0 + c1 * i` serialised natively, the
      encoder yields `(c1, c0)`, the imaginary part first. */
  lemma G2FieldToBnSwaps(c0: nat, c1: nat)
    requires c0 < Pow256(32) && c1 < Pow256(32)
    ensures G2FieldToBn(NativeFq2Bytes(c0, c1)) == (c1, c0)
  {
    Halves(ToBytesLe(c0, 32), ToBytesLe(c1, 32));
    HalfRoundTrip(c0);
    HalfRoundTrip(c1);
  }

  lemma Halves(x: seq<byte>, y: seq<byte>)
    requires |x| == 32 && |y| == 32
    ensures (x + y)[..32] == x && (x + y)[32..64] == y
  {
  }

  /** A value below 2^256 survives 32-byte little-endian encoding. */
  lemma HalfRoundTrip(c: nat)
    requires c < Pow256(32)
    ensures FromBytesLe(ToBytesLe(c, 32)) == c
  {
    FromToBytesLe(c, 32);
    DivModUnique(c, Pow256(32), 0, c);
  }

  /** The swap can be undone: swapping back and re-serialising in native
      order restores the 64 bytes the encoder read. */
  lemma G2FieldToBnInverse(bytes: seq<byte>)
    requires |bytes| >= 64
    ensures var c := G2FieldToBn(bytes); NativeFq2Bytes(c.1, c.0) == bytes[..64]
  {
    ToFromBytesLe(bytes[..32]);
    ToFromBytesLe(bytes[32..64]);
    assert bytes[..64] == bytes[..32] + bytes[32..64];
  }

  /** A G2 point the encoder can handle: not at infinity, and both of its
      coordinates serialise to at least 64 bytes (shorter would make the
      slices of `g2field_to_bn` panic). */
  predicate G2Encodable<G1, G2, Fq, Fq2, Fr>(backend: Backend<G1, G2, Fq, Fq2, Fr>, g2: G2): (b: bool)
    ensures b <==> backend.g2Coordinates(g2) != None
                   && 64 <= |backend.fq2Write(backend.g2Coordinates(g2).value.0)|
                   && 64 <= |backend.fq2Write(backend.g2Coordinates(g2).value.1)|
  {
    var c := backend.g2Coordinates(g2);
    c.Some? && |backend.fq2Write(c.value.0)| >= 64 && |backend.fq2Write(c.value.1)| >= 64
  }

  /** `(x.0, x.1, y.0, y.1)` of a G2 point as `insert_g2` computes them:
      four 256-bit numbers; swapped back pairwise and serialised natively
      they are the bytes the encoder read from X and from Y. */
  function G2Encoding<G1, G2, Fq, Fq2, Fr>(backend: Backend<G1, G2, Fq, Fq2, Fr>, g2: G2): (e: (nat, nat, nat, nat))
    requires G2Encodable(backend, g2)
    ensures e.0 < Pow256(32) && e.1 < Pow256(32) && e.2 < Pow256(32) && e.3 < Pow256(32)
    ensures var c := backend.g2Coordinates(g2).value;
      && NativeFq2Bytes(e.1, e.0) == backend.fq2Write(c.0)[..64]
      && NativeFq2Bytes(e.3, e.2) == backend.fq2Write(c.1)[..64]
  {
    var c := backend.g2Coordinates(g2).value;
    G2FieldToBnInverse(backend.fq2Write(c.0));
    G2FieldToBnInverse(backend.fq2Write(c.1));
    var x := G2FieldToBn(backend.fq2Write(c.0));
    var y := G2FieldToBn(backend.fq2Write(c.1));
    (x.0, x.1, y.0, y.1)
  }

  /** A G1 point that is not at infinity. */
  predicate G1Encodable<G1, G2, Fq, Fq2, Fr>(backend: Backend<G1, G2, Fq, Fq2, Fr>, g1: G1): (b: bool)
    ensures b <==> backend.g1Coordinates(g1) != None
  {
    backend.g1Coordinates(g1).Some?
  }

  /** `[dec(x), dec(y)]` of one G1 point: two canonical numerals that read
      back as the point's affine coordinates. */
  function G1Entry<G1, G2, Fq, Fq2, Fr>(backend: Backend<G1, G2, Fq, Fq2, Fr>, g1: G1): (e: (string, string))
    requires G1Encodable(backend, g1)
    ensures IsCanonical(e.0) && IsCanonical(e.1)
    ensures var c := backend.g1Coordinates(g1).value;
      ParseDec(e.0) == backend.fqToBn(c.0) && ParseDec(e.1) == backend.fqToBn(c.1)
  {
    var c := backend.g1Coordinates(g1).value;
    ParseDecDec(backend.fqToBn(c.0));
    ParseDecDec(backend.fqToBn(c.1));
    (Dec(backend.fqToBn(c.0)), Dec(backend.fqToBn(c.1)))
  }

  /** The Lagrange-commitment list: one entry per point, in the points'
      order. */
  function LagrangeCommitments<G1, G2, Fq, Fq2, Fr>(backend: Backend<G1, G2, Fq, Fq2, Fr>, gs: seq<G1>): (r: seq<(string, string)>)
    requires forall i :: 0 <= i < |gs| ==> G1Encodable(backend, gs[i])
    ensures |r| == |gs|
    ensures forall i :: 0 <= i < |gs| ==> r[i] == G1Entry(backend, gs[i])
  {
    if |gs| == 0 then [] else [G1Entry(backend, gs[0])] + LagrangeCommitments(backend, gs[1..])
  }

  /** Reading entry `i` of the list back as numbers gives the coordinates of
      point `i`. */
  lemma LagrangeCommitmentsDecode<G1, G2, Fq, Fq2, Fr>(backend: Backend<G1, G2, Fq, Fq2, Fr>, gs: seq<G1>, i: nat)
    requires forall j :: 0 <= j < |gs| ==> G1Encodable(backend, gs[j])
    requires i < |gs|
    ensures var r := LagrangeCommitments(backend, gs);
      var c := backend.g1Coordinates(gs[i]).value;
      && IsCanonical(r[i].0) && IsCanonical(r[i].1)
      && ParseDec(r[i].0) == backend.fqToBn(c.0)
      && ParseDec(r[i].1) == backend.fqToBn(c.1)
  {
    var c := backend.g1Coordinates(gs[i]).value;
    ParseDecDec(backend.fqToBn(c.0));
    ParseDecDec(backend.fqToBn(c.1));
  }
}
