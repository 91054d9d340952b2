# Solidity-verifier export: parameter rendering and transcript selection

This project is a Dafny model of the two pieces of the Solidity-verifier export path of the halo2 aggregator that can be stated on their own.

1. **`solidity_render`** builds the template context for the on-chain verifier. It inserts the following entries key by key:
   - the EIP-197 coordinates of the SRS points `s_g2` and `-g2` of the target circuit and of the verifying circuit;
   - both lists of G1 Lagrange commitments, as decimal `[x, y]` pairs;
   - the Fiat-Shamir seed `init_scalar`: BLAKE2b over the length-framed pinned description of the verifying key, reduced into the scalar field;
   - five structural counts of the verifying key: `n_advice`, `lookups`, `permutation_products`, `degree` and `evals`.
2. **`SolidityShaRead` / `SolidityShaSelector`** are the transcript readers. `SolidityShaRead` is a null transcript with no fields: every read, squeeze and `common_*` call succeeds with a constant. `SolidityShaSelector` holds either that null transcript or the real SHA-256 reader `ShaRead`. It forwards every request to the variant it holds.

Modules:
- `Bytes` covers little-endian byte strings: `BigUint::from_bytes_le` and `u64::to_le_bytes`.
- `Decimal` covers base-10 numerals: `to_str_radix(10)`, with a parser as partner.
- `Wrappers` provides `Option`, used for `Option` values and for panics.
- `Curve` holds the library operations the export calls. They are fields of the datatype `Backend`, and the structured reference string is `ParamsVerifier`.
- `PointEncoder` holds:
  - `g2field_to_bn`, the swap of the two 32-byte halves;
  - the G2 encoding;
  - the Lagrange-commitment lists.
- `Structural` holds:
  - the parts of the constraint system and verifying key that are read;
  - `chunks`, and `permutation_products` as a ceiling division;
  - `evals` in 64-bit `usize` arithmetic.
- `Seed` holds the hash-input framing, the incremental BLAKE2b state and the derivation of the seed scalar.
- `Render` holds:
  - the context, a class over `map<string, Value>` that `Insert` updates;
  - the closure `insert_g2`;
  - `solidity_render` up to the call of the code generator, proved equal to `RenderEntries`, the map it must build;
  - the layout of that map: 24 distinct keys, every insert kept.
- `Transcript` holds:
  - the null transcript, as a datatype with one value;
  - the real reader, as an abstract state `R` with step functions that may fail;
  - the selector, as a class with a fixed `mode`, the `variant` it forwards to, and one method per transcript operation;
  - `Run`, which plays a whole script of requests.

Integers are unbounded. The `usize` sums of `evals` are checked against 2^64 - 1, because a debug build panics on overflow. The `unwrap` calls on points at infinity become preconditions, as do the subtraction `degree - 2` and `chunks(0)`, which both panic in a debug build. So does a G2 coordinate serialisation shorter than 64 bytes, on which the slices `bytes[32..64]` and `bytes[..32]` (src/solidity_verifier/mod.rs:30-31) would panic; `PointEncoder.G2Encodable` demands at least 64 bytes. These preconditions are collected in `Render.Renderable`.

The null transcript's challenge is squeezed from 64 zero bytes (src/solidity_verifier/sha256.rs:39-42). For 1 instance query, 5 advice queries, 2 fixed queries, 2 permutation commitments, 2 permutation products and 3 lookups, the `evals` formula gives 1 + 5 + 2 + 1 + 2 + 6 - 1 + 15 = 31 (`Structural.EvalsExample`).

## Model

| member | source | states |
|---|---|---|
| Bytes.FromBytesLe | src/solidity_verifier/mod.rs:30-31 | `from_bytes_le` of an n-byte string is below 256^n |
| Bytes.ToBytesLe | src/solidity_verifier/mod.rs:106 | `to_le_bytes` of a `u64` gives exactly the requested number of bytes |
| Bytes.FromToBytesLe | src/solidity_verifier/mod.rs:106 | encoding a number in n little-endian bytes and decoding it gives the number modulo 256^n |
| Bytes.ToFromBytesLe | src/solidity_verifier/mod.rs:30-31 | decoding n bytes and re-encoding in n bytes gives the bytes back, so decoding is injective at each length |
| Bytes.FromBytesLeAppend | src/solidity_verifier/mod.rs:29-32 | the value of a concatenation is the value of the first part plus 256^len(first part) times the value of the second |
| Decimal.Dec | src/solidity_verifier/mod.rs:39-42 | `to_str_radix(10)` yields a canonical numeral: one or more digits, with no leading zero except in "0" |
| Decimal.ParseDecDec | src/solidity_verifier/mod.rs:39-42 | parsing the numeral of n gives n |
| Decimal.DecParseDec | src/solidity_verifier/mod.rs:72-73 | every canonical numeral is the numeral of its value |
| Decimal.DecInjective | src/solidity_verifier/mod.rs:88-89 | distinct numbers get distinct numerals |
| PointEncoder.G2FieldToBn | src/solidity_verifier/mod.rs:26-33 | `g2field_to_bn` reads two 32-byte halves, so each component it returns is below 2^256 |
| PointEncoder.NativeFq2Bytes | src/solidity_verifier/mod.rs:27-28 | the native serialisation of an F_p^2 element is 64 bytes |
| PointEncoder.G2FieldToBnSplit | src/solidity_verifier/mod.rs:29-32 | both components of `g2field_to_bn` are below 2^256, and the 64 bytes are worth component 1 + 2^256 * component 0, so the swap loses nothing |
| PointEncoder.G2FieldToBnSwaps | src/solidity_verifier/mod.rs:26-33 | for an element c0 + c1*i serialised natively, `g2field_to_bn` returns (c1, c0), the EIP-197 order |
| PointEncoder.G2FieldToBnInverse | src/solidity_verifier/mod.rs:26-33 | swapping the components back and re-serialising restores the 64 bytes that were read |
| PointEncoder.G2Encodable | src/solidity_verifier/mod.rs:26-36 | definition: the points `insert_g2` accepts without panicking: `coordinates().unwrap()` (line 36) needs a finite point, and the slices of `g2field_to_bn` need both coordinates to serialise to at least 64 bytes |
| PointEncoder.G2Encoding | src/solidity_verifier/mod.rs:36-38 | the four numbers `insert_g2` renders are each below 2^256, and swapped back pairwise and re-serialised they are the first 64 bytes of the X and of the Y serialisation |
| PointEncoder.G1Encodable | src/solidity_verifier/mod.rs:70 | definition: the `coordinates().unwrap()` of each Lagrange point (lines 70 and 86) succeeds exactly when the point has affine coordinates |
| PointEncoder.G1Entry | src/solidity_verifier/mod.rs:69-75 | the `[x, y]` pair of one G1 point is two canonical numerals that parse back to the point's affine coordinates |
| PointEncoder.LagrangeCommitments | src/solidity_verifier/mod.rs:66-76 | the list has one entry per Lagrange point, and entry i is the decimal pair of point i |
| PointEncoder.LagrangeCommitmentsDecode | src/solidity_verifier/mod.rs:82-92 | entry i holds canonical numerals that parse back to the coordinates of point i |
| Structural.CheckedAdd | src/solidity_verifier/mod.rs:128-132 | primitive: the definition of a debug-build `usize` addition, which yields the sum when it is at most 2^64 - 1 and panics (`None`) otherwise |
| Structural.CheckedMul | src/solidity_verifier/mod.rs:133 | primitive: the definition of a debug-build `usize` multiplication, which yields the product when it is at most 2^64 - 1 and panics (`None`) otherwise |
| Structural.Chunks | src/solidity_verifier/mod.rs:122 | `chunks(size)` pieces are non-empty and at most `size` long, and all but the last are exactly `size` long |
| Structural.ChunksFlatten | src/solidity_verifier/mod.rs:118-122 | the chunks concatenate back to the permutation columns |
| Structural.ChunksCount | src/solidity_verifier/mod.rs:118-123 | there are ceil(len / size) chunks |
| Structural.PermutationProducts | src/solidity_verifier/mod.rs:118-123 | the number of `chunks(degree - 2)` of the permutation columns is ceil(columns / (degree - 2)) |
| Structural.PermutationProductsCount | src/solidity_verifier/mod.rs:118-124 | `permutation_products` = ceil(columns / (degree - 2)), which is zero exactly when there are no permutation columns |
| Structural.Evals | src/solidity_verifier/mod.rs:128-135 | the formula never fails on its `- 1`; it fails only on `usize` overflow, and otherwise yields iq + aq + fq + pc + 3*pp + 5*lookups |
| Structural.VkEvals | src/solidity_verifier/mod.rs:128-135 | the `evals` of a verifying key exists exactly when its `usize` sums do not overflow, and is then iq + aq + fq + pc + 3*pp + 5*lookups |
| Structural.EvalsExample | src/solidity_verifier/mod.rs:128-135 | for 1, 5, 2, 2, 2 and 3 the formula yields 31 |
| Seed.HashInput | src/solidity_verifier/mod.rs:105-107 | the hash input is 8 bytes whose little-endian value is the string length, followed by the string itself |
| Seed.HashInputRoundTrip | src/solidity_verifier/mod.rs:105-107 | every string shorter than 2^64 bytes is read back from its framing |
| Seed.ParseHashInputSound | src/solidity_verifier/mod.rs:105-107 | whatever the frame reader accepts is the framing of the string it returns |
| Seed.HashInputInjective | src/solidity_verifier/mod.rs:105-107 | distinct pinned strings give distinct hash inputs |
| Seed.Blake2bState.constructor | src/solidity_verifier/mod.rs:100-103 | the hasher starts with output length 64, personalisation "Halo2-Verify-Key" and nothing absorbed |
| Seed.Blake2bState.Update | src/solidity_verifier/mod.rs:106-107 | `update` appends its bytes to the absorbed message |
| Seed.Blake2bState.Finalize | src/solidity_verifier/mod.rs:109 | primitive: `finalize` is BLAKE2b, with the state's own output length and personalisation, over everything absorbed |
| Seed.InitScalar | src/solidity_verifier/mod.rs:100-109 | definition: the seed is the wide reduction of the 64-byte BLAKE2b digest, personalised "Halo2-Verify-Key", of the 8-byte length header followed by the pinned bytes |
| Seed.DeriveInitScalar | src/solidity_verifier/mod.rs:100-109 | the two updates and the finalisation compute the wide reduction of BLAKE2b over the framed pinned string |
| Render.RenderContext.constructor | src/solidity_verifier/mod.rs:24 | a new context is empty |
| Render.RenderContext.Insert | src/solidity_verifier/mod.rs:39 | `insert` sets one key and leaves every other key as it was |
| Render.G2Key | src/solidity_verifier/mod.rs:39-42 | `format!("{}_{}", prefix, component)` is the prefix, an underscore at position len(prefix), then the component |
| Render.G2Entries | src/solidity_verifier/mod.rs:35-43 | `insert_g2` writes exactly the four keys of its prefix, each holding a canonical decimal numeral |
| Render.G2KeyInjective | src/solidity_verifier/mod.rs:39-42 | keys `prefix_component` with components of one length are equal only for equal prefixes and components |
| Render.G2EntriesLayout | src/solidity_verifier/mod.rs:35-43 | `insert_g2` writes four distinct keys: `_x0`/`_y0` hold bytes 32..64 of the X/Y serialisation and `_x1`/`_y1` hold bytes 0..32, each as a decimal numeral |
| Render.G2EntriesEip197 | src/solidity_verifier/mod.rs:26-43 | for coordinates serialised as c0 + c1*i, `_x0`/`_y0` hold c1 and `_x1`/`_y1` hold c0 |
| Render.InsertG2 | src/solidity_verifier/mod.rs:35-43 | the four inserts of `insert_g2` add its four entries to the context and change no other key |
| Render.InsertSrsPoints | src/solidity_verifier/mod.rs:45-64 | the four `insert_g2` calls add the sixteen G2 entries in order |
| Render.InsertCommitments | src/solidity_verifier/mod.rs:66-111 | the inserts add both Lagrange lists and the seed scalar derived from the pinned string |
| Render.InsertCounts | src/solidity_verifier/mod.rs:113-136 | the inserts add the five structural counts |
| Render.Renderable | src/solidity_verifier/mod.rs:26-136 | the inputs on which `solidity_render` does not panic before the code generator (both G2 points of each SRS `G2Encodable`, every Lagrange point `G1Encodable`, degree at least 3, `evals` defined) have degree at least 3 and `usize` sums that do not overflow |
| Render.CommitmentEntries | src/solidity_verifier/mod.rs:66-111 | the commitment entries are the keys of the two Lagrange lists and `init_scalar`; under each list key, entry i is the pair of that circuit's Lagrange point i |
| Render.CountEntries | src/solidity_verifier/mod.rs:113-136 | the count entries are the five keys `n_advice`, `lookups`, `permutation_products`, `degree` and `evals`, each holding a count |
| Render.ScalarEntries | src/solidity_verifier/mod.rs:66-136 | the entries that are not G2 coordinates occupy exactly the eight scalar keys |
| Render.G2Part | src/solidity_verifier/mod.rs:45-64 | the four `insert_g2` calls write exactly the keys of the four SRS prefixes |
| Render.RenderEntries | src/solidity_verifier/mod.rs:24-136 | the context holds exactly the 24 keys, and the counts, inserted last, all keep their values |
| Render.SolidityRender | src/solidity_verifier/mod.rs:13-137 | from an empty context, the inserts of `solidity_render` build exactly `RenderEntries` |
| Render.G2KeysShape | src/solidity_verifier/mod.rs:39-42 | one prefix yields four distinct keys, each three characters longer than the prefix |
| Render.G2KeysDisjoint | src/solidity_verifier/mod.rs:39-42 | two different prefixes of one length share no key |
| Render.G2PrefixesDisjoint | src/solidity_verifier/mod.rs:45-64 | the four SRS prefixes give four pairwise disjoint key sets |
| Render.G2PartLayout | src/solidity_verifier/mod.rs:45-64 | the G2 part has 16 keys and keeps each point's four entries unchanged |
| Render.ScalarKeysShape | src/solidity_verifier/mod.rs:77-136 | the eight other keys are distinct, and none has the 22-character length of a G2 key |
| Render.ScalarEntriesLayout | src/solidity_verifier/mod.rs:77-136 | the Lagrange lists, the seed and the counts occupy exactly the eight other keys |
| Render.G2KeysNotScalar | src/solidity_verifier/mod.rs:39-136 | no G2 key is overwritten by a later insert |
| Render.RenderEntriesLayout | src/solidity_verifier/mod.rs:24-136 | the context holds exactly 24 keys, and each of the four G2 encodings and the eight other entries appears in it unchanged |
| Render.CountEntriesLayout | src/solidity_verifier/mod.rs:113-136 | the count entries hold, key by key, the advice-column count, the lookup count, the permutation products, the quotient-polynomial degree and the evaluation count |
| Render.RenderEntriesCount | src/solidity_verifier/mod.rs:113-136 | the counts are inserted last, so the context keeps them |
| Render.RenderCounts | src/solidity_verifier/mod.rs:113-126 | `n_advice`, `lookups` and `degree` reach the context unchanged |
| Render.RenderPermutationProducts | src/solidity_verifier/mod.rs:118-124 | `permutation_products` in the context is the number of chunks of size degree - 2 |
| Render.RenderEvals | src/solidity_verifier/mod.rs:128-136 | `evals` in the context is iq + aq + fq + pc + 3*pp + 5*lookups |
| Render.CommitmentEntriesLists | src/solidity_verifier/mod.rs:66-96 | each list key holds its own circuit's Lagrange-commitment list |
| Render.RenderLagrange | src/solidity_verifier/mod.rs:66-96 | the context holds, under each list key, its own circuit's Lagrange-commitment list, in the points' order |
| Render.RenderSeed | src/solidity_verifier/mod.rs:100-111 | `init_scalar` in the context is the decimal value of the seed scalar of the pinned string |
| Render.InitScalarDependsOnPinnedOnly | src/solidity_verifier/mod.rs:105-111 | two renders whose keys pin the same string get the same `init_scalar`, whatever their SRS points and counts |
| Transcript.ZeroChallengeBytes | src/solidity_verifier/sha256.rs:39-42 | definition: the null challenge input, 64 bytes, all zero |
| Transcript.SolidityShaRead.Step | src/solidity_verifier/sha256.rs:27-52 | the null transcript answers every request without error: the identity point, the root of unity, the challenge of 64 zero bytes, and `Ok(())` |
| Transcript.ShaStep | src/solidity_verifier/sha256.rs:57 | the real reader answers each request with a reply of that request's kind |
| Transcript.ShaRun | src/solidity_verifier/sha256.rs:64-101 | a script played on the real reader alone gives one reply per request, each of that request's kind |
| Transcript.Step | src/solidity_verifier/sha256.rs:64-101 | the selector's `match self` answers each request with a reply of its kind and keeps the variant tag; on the null transcript it never fails and changes nothing |
| Transcript.Run | src/solidity_verifier/sha256.rs:64-101 | a script played on the selector gives one reply per request, each of that request's kind |
| Transcript.RunKeepsMode | src/solidity_verifier/sha256.rs:56-101 | no script of requests changes the selector's variant tag |
| Transcript.ShaForwarding | src/solidity_verifier/sha256.rs:64-101 | in Sha mode the selector's replies and final state over any script are those of the real reader |
| Transcript.NullRunConstant | src/solidity_verifier/sha256.rs:27-52 | in null mode no request in any script fails, the transcript never changes, and each reply is the constant answer to that request alone |
| Transcript.NullRunHistoryFree | src/solidity_verifier/sha256.rs:15-17 | in null mode, equal requests at any two positions of a script get equal replies |
| Transcript.SolidityShaSelector.FromShaRead | src/solidity_verifier/sha256.rs:57 | a selector built around a real reader has Sha mode and holds that reader |
| Transcript.SolidityShaSelector.FromSolidityShaRead | src/solidity_verifier/sha256.rs:58 | a selector built around the null transcript has null mode |
| Transcript.SolidityShaSelector.ReadPoint | src/solidity_verifier/sha256.rs:64-69 | `read_point` returns and advances exactly what the active variant does, keeps the mode, and in null mode returns `Ok(identity)` |
| Transcript.SolidityShaSelector.ReadScalar | src/solidity_verifier/sha256.rs:71-76 | `read_scalar` forwards to the active variant, keeps the mode, and in null mode returns `Ok(root_of_unity)` |
| Transcript.SolidityShaSelector.SqueezeChallenge | src/solidity_verifier/sha256.rs:82-87 | `squeeze_challenge` forwards to the active variant, keeps the mode, and in null mode returns the challenge of 64 zero bytes |
| Transcript.SolidityShaSelector.CommonPoint | src/solidity_verifier/sha256.rs:89-94 | `common_point` forwards to the active variant, keeps the mode, and in null mode succeeds and changes nothing |
| Transcript.SolidityShaSelector.CommonScalar | src/solidity_verifier/sha256.rs:96-101 | `common_scalar` forwards to the active variant, keeps the mode, and in null mode succeeds and changes nothing |

## Left out

- Loading and rendering the Tera template, and creating the output file (src/solidity_verifier/mod.rs:23, 146-149), are I/O. `path_in`, `path_out` and `template_name` are therefore not modelled.
- `solidity_codegen_with_proof` (src/solidity_verifier/mod.rs:138-144) is not part of this model. With it go the `instances` and `proofs` parameters and whatever entries it adds to the context. `Render.SolidityRender` ends just before that call.
- The library operations are fields of `Curve.Backend` and `Transcript.CurveConstants`, taken as given rather than computed:
  - BLAKE2b;
  - `from_bytes_wide`;
  - `field_to_bn`;
  - the serialisation `f.write`;
  - `coordinates()`;
  - G2 negation;
  - `identity()`;
  - `root_of_unity()`;
  - `Challenge255::new`.
- `f.write` into a `Vec` cannot fail, so its `unwrap` is not modelled as a panic.
- The `Debug` formatting of `vkey.pinned()` is not modelled: the model takes the formatted string's UTF-8 bytes as an input. `cs.degree()` and `get_quotient_poly_degree()` are also taken as inputs.
- Render.SolidityRender: the `usize` arithmetic of `evals` is modelled as a debug build does it, so overflow is a panic and is excluded by the precondition. The wrap-around of a release build is not modelled.
- Render.SolidityRender: a degree below 3 is excluded by the precondition. There `degree - 2` underflows, which panics in a debug build, or `chunks(0)` panics. A release build wraps the subtraction and then gets at most one chunk; that is not modelled.
- The serialisation of inserted values into Tera values is not modelled: an entry is a `Render.Value`, which is a decimal string, a count, or a list of decimal pairs.
- The internals of the real `ShaRead` transcript are not modelled: its input stream, its hash state and its errors. It appears only as `Transcript.ShaReadOps`, step functions over an abstract state.
- The empty `SolidityTranscript` marker impls (src/solidity_verifier/sha256.rs:54, 104-107) carry no behaviour.
- The test `test_solidity_render` is not modelled: it generates parameters, proves circuits and writes files.
