/** What the export borrows from its curve, field and hash libraries, taken
    as given: points, field elements and scalars are opaque type parameters,
    and every library operation the export calls is a field of `Backend`. */
module Curve {
  import opened Bytes
  import opened Wrappers

  /** The library operations used by `solidity_render`, for a pairing-friendly
      curve with base field `Fq`, quadratic extension `Fq2` and scalar field
      `Fr`.
      - `g1Coordinates`, `g2Coordinates`: `coordinates()`, `None` for the
        point at infinity;
      - `g2Neg`: point negation `-g2`;
      - `fqToBn`, `frToBn`: `field_to_bn`, the canonical value of an element;
      - `fq2Write`: the serialisation `f.write` of an extension-field element;
      - `frFromBytesWide`: `from_bytes_wide`, the wide reduction into `Fr`;
      - `blake2b`: BLAKE2b with a given output length and personalisation,
        applied to the whole message. */
  datatype Backend<!G1, !G2, !Fq, !Fq2, !Fr> = Backend(
    g1Coordinates: G1 -> Option<(Fq, Fq)>,
    g2Coordinates: G2 -> Option<(Fq2, Fq2)>,
    g2Neg: G2 -> G2,
    fqToBn: Fq -> nat,
    frToBn: Fr -> nat,
    fq2Write: Fq2 -> seq<byte>,
    frFromBytesWide: seq<byte> -> Fr,
    blake2b: (nat, seq<byte>, seq<byte>) -> seq<byte>)

  /** The verifier's share of the structured reference string: the G2
      generator, the shifted generator `s_g2`, and the G1 commitments to the
      Lagrange basis, in order. */
  datatype ParamsVerifier<G1, G2> = ParamsVerifier(g2: G2, sG2: G2, gLagrange: seq<G1>)
}
