/** The verifier-context builder `solidity_render`: it fills the template
    context, key by key, with the EIP-197 encodings of both SRS G2 points and
    their negated generators, both Lagrange-commitment lists, the
    Fiat-Shamir seed and the structural counts of the verifying key. */
module Render {
  import opened Bytes
  import opened Wrappers
  import opened Decimal
  import opened Curve
  import opened PointEncoder
  import opened Structural
  import opened Seed

  /** A value of the template context: a decimal string, an integer count,
      or a list of `[x, y]` decimal pairs. */
  datatype Value = Text(text: string) | Count(count: nat) | Pairs(pairs: seq<(string, string)>)

  /** `tera::Context`: a map from template-variable names to values that
      `insert` extends or overwrites. */
  class RenderContext {
    var entries: map<string, Value>

    constructor ()
      ensures entries == map[]
    {
      entries := map[];
    }

    method Insert(key: string, value: Value)
      modifies this
      ensures entries == old(entries)[key := value]
    {
      entries := entries[key := value];
    }
  }

  const TARGET_S_G2: string := "target_circuit_s_g2"
  const TARGET_N_G2: string := "target_circuit_n_g2"
  const VERIFY_S_G2: string := "verify_circuit_s_g2"
  const VERIFY_N_G2: string := "verify_circuit_n_g2"

  /** `format!("{}_{}", prefix, component)`: the prefix, an underscore,
      then the component. */
  function G2Key(prefix: string, component: string): (k: string)
    ensures |k| == |prefix| + 1 + |component| && k[|prefix|] == '_'
    ensures k[..|prefix|] == prefix && k[|prefix| + 1..] == component
  {
    prefix + "_" + component
  }

  /** Keys built from components of one length are equal only when both
      their prefixes and their components are. */
  lemma G2KeyInjective(p1: string, c1: string, p2: string, c2: string)
    requires |c1| == |c2| && G2Key(p1, c1) == G2Key(p2, c2)
    ensures p1 == p2 && c1 == c2
  {
    var k := G2Key(p1, c1);
    assert p1 == k[..|p1|] && p2 == G2Key(p2, c2)[..|p2|];
    assert c1 == k[|p1| + 1..] && c2 == G2Key(p2, c2)[|p2| + 1..];
  }

  /** The four entries `insert_g2` adds for one G2 point: the four keys
      of the prefix, each holding a canonical decimal numeral. */
  function G2Entries<G1, G2, Fq, Fq2, Fr>(backend: Backend<G1, G2, Fq, Fq2, Fr>, prefix: string, g2: G2): (m: map<string, Value>)
    requires G2Encodable(backend, g2)
    ensures m.Keys == G2Keys(prefix)
    ensures forall k :: k in m ==> m[k].Text? && IsCanonical(m[k].text)
  {
    var e := G2Encoding(backend, g2);
    map[G2Key(prefix, "x0") := Text(Dec(e.0)),
        G2Key(prefix, "x1") := Text(Dec(e.1)),
        G2Key(prefix, "y0") := Text(Dec(e.2)),
        G2Key(prefix, "y1") := Text(Dec(e.3))]
  }

  /** `insert_g2` adds exactly four distinct keys; `_x0`/`_y0` hold the
      second 32-byte half of the X/Y serialisation and `_x1`/`_y1` the first
      half, each as a decimal numeral. */
  lemma G2EntriesLayout<G1, G2, Fq, Fq2, Fr>(backend: Backend<G1, G2, Fq, Fq2, Fr>, prefix: string, g2: G2)
    requires G2Encodable(backend, g2)
    ensures var m := G2Entries(backend, prefix, g2);
      var c := backend.g2Coordinates(g2).value;
      var xb, yb := backend.fq2Write(c.0), backend.fq2Write(c.1);
      && m.Keys == G2Keys(prefix)
      && |m| == 4
      && m[G2Key(prefix, "x0")] == Text(Dec(FromBytesLe(xb[32..64])))
      && m[G2Key(prefix, "x1")] == Text(Dec(FromBytesLe(xb[..32])))
      && m[G2Key(prefix, "y0")] == Text(Dec(FromBytesLe(yb[32..64])))
      && m[G2Key(prefix, "y1")] == Text(Dec(FromBytesLe(yb[..32])))
  {
    G2KeysShape(prefix);
    var m := G2Entries(backend, prefix, g2);
    assert |m| == |m.Keys|;
  }

  /** Successive updates of a map are a union with the map of the updates. */
  lemma UpdatesAreUnion4<K, V>(m: map<K, V>, k0: K, v0: V, k1: K, v1: V, k2: K, v2: V, k3: K, v3: V)
    ensures m[k0 := v0][k1 := v1][k2 := v2][k3 := v3] == m + map[k0 := v0, k1 := v1, k2 := v2, k3 := v3]
  {
  }

  lemma UpdatesAreUnion3<K, V>(m: map<K, V>, k0: K, v0: V, k1: K, v1: V, k2: K, v2: V)
    ensures m[k0 := v0][k1 := v1][k2 := v2] == m + map[k0 := v0, k1 := v1, k2 := v2]
  {
  }

  lemma UpdatesAreUnion5<K, V>(m: map<K, V>, k0: K, v0: V, k1: K, v1: V, k2: K, v2: V, k3: K, v3: V, k4: K, v4: V)
    ensures m[k0 := v0][k1 := v1][k2 := v2][k3 := v3][k4 := v4]
         == m + map[k0 := v0, k1 := v1, k2 := v2, k3 := v3, k4 := v4]
  {
  }

  lemma UnionAssoc4<K, V>(m: map<K, V>, a: map<K, V>, b: map<K, V>, c: map<K, V>, d: map<K, V>)
    ensures m + a + b + c + d == m + (a + b + c + d)
  {
  }

  /** The closure `insert_g2`: four successive inserts into the context. */
  method InsertG2<G1, G2, Fq, Fq2, Fr>(ctx: RenderContext, backend: Backend<G1, G2, Fq, Fq2, Fr>, prefix: string, g2: G2)
    requires G2Encodable(backend, g2)
    modifies ctx
    ensures ctx.entries == old(ctx.entries) + G2Entries(backend, prefix, g2)
  {
    var c := backend.g2Coordinates(g2).value;
    var x := G2FieldToBn(backend.fq2Write(c.0));
    var y := G2FieldToBn(backend.fq2Write(c.1));
    ghost var before := ctx.entries;
    UpdatesAreUnion4(before, G2Key(prefix, "x0"), Text(Dec(x.0)), G2Key(prefix, "x1"), Text(Dec(x.1)),
                     G2Key(prefix, "y0"), Text(Dec(y.0)), G2Key(prefix, "y1"), Text(Dec(y.1)));
    ctx.Insert(G2Key(prefix, "x0"), Text(Dec(x.0)));
    ctx.Insert(G2Key(prefix, "x1"), Text(Dec(x.1)));
    ctx.Insert(G2Key(prefix, "y0"), Text(Dec(y.0)));
    ctx.Insert(G2Key(prefix, "y1"), Text(Dec(y.1)));
  }

  /** Inputs on which `solidity_render` does not panic before the code
      generator runs: no G2 point or Lagrange commitment at infinity, G2
      coordinates that serialise to 64 bytes, a constraint-system degree of
      at least 3, and an evaluation count that fits in `usize`. */
  predicate Renderable<G1, G2, Fq, Fq2, Fr>(backend: Backend<G1, G2, Fq, Fq2, Fr>,
                                            target: ParamsVerifier<G1, G2>, verify: ParamsVerifier<G1, G2>,
                                            vk: VerifyingKey<G1>): (b: bool)
    ensures b ==> && vk.cs.degree >= 3
                  && var e := |vk.cs.instanceQueries| + |vk.cs.adviceQueries| + |vk.cs.fixedQueries|
                              + |vk.permutationCommitments| + 3 * PermutationProducts(vk.cs);
                     e + 1 <= USIZE_MAX && e + 5 * vk.cs.numLookups <= USIZE_MAX
  {
    && G2Encodable(backend, target.sG2)
    && G2Encodable(backend, backend.g2Neg(target.g2))
    && G2Encodable(backend, verify.sG2)
    && G2Encodable(backend, backend.g2Neg(verify.g2))
    && (forall i :: 0 <= i < |verify.gLagrange| ==> G1Encodable(backend, verify.gLagrange[i]))
    && (forall i :: 0 <= i < |target.gLagrange| ==> G1Encodable(backend, target.gLagrange[i]))
    && vk.cs.degree >= 3
    && VkEvals(vk).Some?
  }

  /** Both Lagrange-commitment lists, one pair per point, and the
      Fiat-Shamir seed. */
  function CommitmentEntries<G1, G2, Fq, Fq2, Fr>(backend: Backend<G1, G2, Fq, Fq2, Fr>,
                                                  target: ParamsVerifier<G1, G2>, verify: ParamsVerifier<G1, G2>,
                                                  pinned: seq<byte>): (m: map<string, Value>)
    requires forall i :: 0 <= i < |verify.gLagrange| ==> G1Encodable(backend, verify.gLagrange[i])
    requires forall i :: 0 <= i < |target.gLagrange| ==> G1Encodable(backend, target.gLagrange[i])
    ensures m.Keys == {"verify_circuit_lagrange_commitments", "target_circuit_lagrange_commitments", "init_scalar"}
    ensures m["verify_circuit_lagrange_commitments"].Pairs?
         && |m["verify_circuit_lagrange_commitments"].pairs| == |verify.gLagrange|
         && forall i :: 0 <= i < |verify.gLagrange| ==>
              m["verify_circuit_lagrange_commitments"].pairs[i] == G1Entry(backend, verify.gLagrange[i])
    ensures m["target_circuit_lagrange_commitments"].Pairs?
         && |m["target_circuit_lagrange_commitments"].pairs| == |target.gLagrange|
         && forall i :: 0 <= i < |target.gLagrange| ==>
              m["target_circuit_lagrange_commitments"].pairs[i] == G1Entry(backend, target.gLagrange[i])
  {
    map["verify_circuit_lagrange_commitments" := Pairs(LagrangeCommitments(backend, verify.gLagrange)),
        "target_circuit_lagrange_commitments" := Pairs(LagrangeCommitments(backend, target.gLagrange)),
        "init_scalar" := Text(Dec(backend.frToBn(InitScalar(backend.blake2b, backend.frFromBytesWide, pinned))))]
  }

  /** The five structural counts of the verifying key. */
  function CountEntries<G1>(vk: VerifyingKey<G1>): (m: map<string, Value>)
    requires vk.cs.degree >= 3 && VkEvals(vk).Some?
    ensures m.Keys == {"n_advice", "lookups", "permutation_products", "degree", "evals"}
    ensures forall k :: k in m ==> m[k].Count?
  {
    map["n_advice" := Count(vk.cs.numAdviceColumns),
        "lookups" := Count(vk.cs.numLookups),
        "permutation_products" := Count(PermutationProducts(vk.cs)),
        "degree" := Count(vk.quotientPolyDegree),
        "evals" := Count(VkEvals(vk).value)]
  }

  /** The eight entries that are not G2 coordinates. */
  function ScalarEntries<G1, G2, Fq, Fq2, Fr>(backend: Backend<G1, G2, Fq, Fq2, Fr>,
                                              target: ParamsVerifier<G1, G2>, verify: ParamsVerifier<G1, G2>,
                                              vk: VerifyingKey<G1>): (m: map<string, Value>)
    requires Renderable(backend, target, verify, vk)
    ensures m.Keys == ScalarKeys()
  {
    CommitmentEntries(backend, target, verify, vk.pinned) + CountEntries(vk)
  }

  /** The sixteen G2 entries, in the order `insert_g2` is called: the keys
      of the four prefixes. */
  function G2Part<G1, G2, Fq, Fq2, Fr>(backend: Backend<G1, G2, Fq, Fq2, Fr>,
                                       target: ParamsVerifier<G1, G2>, verify: ParamsVerifier<G1, G2>): (m: map<string, Value>)
    requires G2Encodable(backend, target.sG2) && G2Encodable(backend, backend.g2Neg(target.g2))
    requires G2Encodable(backend, verify.sG2) && G2Encodable(backend, backend.g2Neg(verify.g2))
    ensures m.Keys == G2Keys(TARGET_S_G2) + G2Keys(TARGET_N_G2) + G2Keys(VERIFY_S_G2) + G2Keys(VERIFY_N_G2)
  {
    G2Entries(backend, TARGET_S_G2, target.sG2)
    + G2Entries(backend, TARGET_N_G2, backend.g2Neg(target.g2))
    + G2Entries(backend, VERIFY_S_G2, verify.sG2)
    + G2Entries(backend, VERIFY_N_G2, backend.g2Neg(verify.g2))
  }

  /** The context `solidity_render` has built when it calls the code
      generator: the G2 keys of the four prefixes and the eight others,
      with the counts, inserted last, all kept. */
  function RenderEntries<G1, G2, Fq, Fq2, Fr>(backend: Backend<G1, G2, Fq, Fq2, Fr>,
                                              target: ParamsVerifier<G1, G2>, verify: ParamsVerifier<G1, G2>,
                                              vk: VerifyingKey<G1>): (m: map<string, Value>)
    requires Renderable(backend, target, verify, vk)
    ensures m.Keys == RenderKeys()
    ensures Includes(m, CountEntries(vk))
  {
    G2Part(backend, target, verify) + ScalarEntries(backend, target, verify, vk)
  }

  /** The four `insert_g2` calls of `solidity_render`. */
  method InsertSrsPoints<G1, G2, Fq, Fq2, Fr>(ctx: RenderContext, backend: Backend<G1, G2, Fq, Fq2, Fr>,
                                              target: ParamsVerifier<G1, G2>, verify: ParamsVerifier<G1, G2>)
    requires G2Encodable(backend, target.sG2) && G2Encodable(backend, backend.g2Neg(target.g2))
    requires G2Encodable(backend, verify.sG2) && G2Encodable(backend, backend.g2Neg(verify.g2))
    modifies ctx
    ensures ctx.entries == old(ctx.entries) + G2Part(backend, target, verify)
  {
    ghost var a := G2Entries(backend, TARGET_S_G2, target.sG2);
    ghost var b := G2Entries(backend, TARGET_N_G2, backend.g2Neg(target.g2));
    ghost var c := G2Entries(backend, VERIFY_S_G2, verify.sG2);
    ghost var d := G2Entries(backend, VERIFY_N_G2, backend.g2Neg(verify.g2));
    UnionAssoc4(ctx.entries, a, b, c, d);
    InsertG2(ctx, backend, TARGET_S_G2, target.sG2);
    InsertG2(ctx, backend, TARGET_N_G2, backend.g2Neg(target.g2));
    InsertG2(ctx, backend, VERIFY_S_G2, verify.sG2);
    InsertG2(ctx, backend, VERIFY_N_G2, backend.g2Neg(verify.g2));
  }

  /** The inserts of both Lagrange-commitment lists and of the seed, which
      is hashed in between. */
  method InsertCommitments<G1, G2, Fq, Fq2, Fr>(ctx: RenderContext, backend: Backend<G1, G2, Fq, Fq2, Fr>,
                                                target: ParamsVerifier<G1, G2>, verify: ParamsVerifier<G1, G2>,
                                                pinned: seq<byte>)
    requires forall i :: 0 <= i < |verify.gLagrange| ==> G1Encodable(backend, verify.gLagrange[i])
    requires forall i :: 0 <= i < |target.gLagrange| ==> G1Encodable(backend, target.gLagrange[i])
    modifies ctx
    ensures ctx.entries == old(ctx.entries) + CommitmentEntries(backend, target, verify, pinned)
  {
    var verifyLagrange := LagrangeCommitments(backend, verify.gLagrange);
    ctx.Insert("verify_circuit_lagrange_commitments", Pairs(verifyLagrange));
    var targetLagrange := LagrangeCommitments(backend, target.gLagrange);
    ctx.Insert("target_circuit_lagrange_commitments", Pairs(targetLagrange));
    var scalar := DeriveInitScalar(backend.blake2b, backend.frFromBytesWide, pinned);
    ctx.Insert("init_scalar", Text(Dec(backend.frToBn(scalar))));
    UpdatesAreUnion3(old(ctx.entries), "verify_circuit_lagrange_commitments", Pairs(verifyLagrange),
                     "target_circuit_lagrange_commitments", Pairs(targetLagrange),
                     "init_scalar", Text(Dec(backend.frToBn(scalar))));
  }

  /** The inserts of the structural counts. */
  method InsertCounts<G1>(ctx: RenderContext, vk: VerifyingKey<G1>)
    requires vk.cs.degree >= 3 && VkEvals(vk).Some?
    modifies ctx
    ensures ctx.entries == old(ctx.entries) + CountEntries(vk)
  {
    ctx.Insert("n_advice", Count(vk.cs.numAdviceColumns));
    var lookups := vk.cs.numLookups;
    ctx.Insert("lookups", Count(lookups));
    var nPermutationProduct := |Chunks(vk.cs.permutationColumns, vk.cs.degree - 2)|;
    ctx.Insert("permutation_products", Count(nPermutationProduct));
    ctx.Insert("degree", Count(vk.quotientPolyDegree));
    var evals := Evals(|vk.cs.instanceQueries|, |vk.cs.adviceQueries|, |vk.cs.fixedQueries|,
                       |vk.permutationCommitments|, nPermutationProduct, lookups);
    ctx.Insert("evals", Count(evals.value));
    UpdatesAreUnion5(old(ctx.entries), "n_advice", Count(vk.cs.numAdviceColumns), "lookups", Count(lookups),
                     "permutation_products", Count(nPermutationProduct), "degree", Count(vk.quotientPolyDegree),
                     "evals", Count(evals.value));
  }

  lemma UnionAssoc3<K, V>(m: map<K, V>, a: map<K, V>, b: map<K, V>, c: map<K, V>)
    requires m == map[]
    ensures m + a + b + c == a + (b + c)
  {
  }

  /** `solidity_render` up to the call of the code generator: the inserts
      in the source's order, starting from an empty context. */
  method SolidityRender<G1, G2, Fq, Fq2, Fr>(backend: Backend<G1, G2, Fq, Fq2, Fr>,
                                             target: ParamsVerifier<G1, G2>, verify: ParamsVerifier<G1, G2>,
                                             vk: VerifyingKey<G1>)
    returns (ctx: RenderContext)
    requires Renderable(backend, target, verify, vk)
    ensures fresh(ctx)
    ensures ctx.entries == RenderEntries(backend, target, verify, vk)
  {
    ctx := new RenderContext();
    ghost var a, b, c := G2Part(backend, target, verify),
      CommitmentEntries(backend, target, verify, vk.pinned), CountEntries(vk);
    UnionAssoc3(ctx.entries, a, b, c);
    InsertSrsPoints(ctx, backend, target, verify);
    InsertCommitments(ctx, backend, target, verify, vk.pinned);
    InsertCounts(ctx, vk);
  }

  /** The four keys `insert_g2` writes under one prefix. */
  function G2Keys(prefix: string): set<string> {
    {G2Key(prefix, "x0"), G2Key(prefix, "x1"), G2Key(prefix, "y0"), G2Key(prefix, "y1")}
  }

  /** The keys of the eight entries that are not G2 coordinates. */
  function ScalarKeys(): set<string> {
    {"verify_circuit_lagrange_commitments", "target_circuit_lagrange_commitments", "init_scalar",
     "n_advice", "lookups", "permutation_products", "degree", "evals"}
  }

  /** The 24 keys of the context. */
  function RenderKeys(): set<string> {
    G2Keys(TARGET_S_G2) + G2Keys(TARGET_N_G2) + G2Keys(VERIFY_S_G2) + G2Keys(VERIFY_N_G2) + ScalarKeys()
  }

  /** `part` appears in `m` unchanged. */
  ghost predicate Includes<K, V>(m: map<K, V>, part: map<K, V>) {
    forall k :: k in part ==> k in m && m[k] == part[k]
  }

  /** A union of maps with disjoint keys keeps both maps and their sizes add up. */
  lemma DisjointUnion<K, V>(a: map<K, V>, b: map<K, V>)
    requires a.Keys !! b.Keys
    ensures (a + b).Keys == a.Keys + b.Keys
    ensures |a + b| == |a| + |b|
    ensures Includes(a + b, a) && Includes(a + b, b)
  {
    assert |(a + b).Keys| == |a.Keys + b.Keys|;
  }

  /** Inclusion is transitive. */
  lemma IncludesTrans<K, V>(m1: map<K, V>, m2: map<K, V>, m3: map<K, V>)
    requires Includes(m3, m2) && Includes(m2, m1)
    ensures Includes(m3, m1)
  {
  }

  /** Under one prefix the four keys are distinct and three characters
      longer than the prefix. */
  lemma G2KeysShape(prefix: string)
    ensures |G2Keys(prefix)| == 4
    ensures forall k :: k in G2Keys(prefix) ==> |k| == |prefix| + 3
  {
    var comps := ["x0", "x1", "y0", "y1"];
    forall c1, c2 | c1 in comps && c2 in comps && c1 != c2
      ensures G2Key(prefix, c1) != G2Key(prefix, c2)
    {
      if G2Key(prefix, c1) == G2Key(prefix, c2) {
        G2KeyInjective(prefix, c1, prefix, c2);
      }
    }
  }

  /** Two different prefixes of one length share no key. */
  lemma G2KeysDisjoint(p1: string, p2: string)
    requires |p1| == |p2| && p1 != p2
    ensures G2Keys(p1) !! G2Keys(p2)
  {
    var comps := ["x0", "x1", "y0", "y1"];
    forall c1, c2 | c1 in comps && c2 in comps
      ensures G2Key(p1, c1) != G2Key(p2, c2)
    {
      if G2Key(p1, c1) == G2Key(p2, c2) {
        G2KeyInjective(p1, c1, p2, c2);
      }
    }
  }

  /** Four maps with pairwise disjoint keys: their union keeps each of them
      and its size is the sum of theirs. */
  lemma DisjointUnion4<K, V>(a: map<K, V>, b: map<K, V>, c: map<K, V>, d: map<K, V>)
    requires a.Keys !! b.Keys && a.Keys !! c.Keys && a.Keys !! d.Keys
    requires b.Keys !! c.Keys && b.Keys !! d.Keys && c.Keys !! d.Keys
    ensures (a + b + c + d).Keys == a.Keys + b.Keys + c.Keys + d.Keys
    ensures |a + b + c + d| == |a| + |b| + |c| + |d|
    ensures Includes(a + b + c + d, a) && Includes(a + b + c + d, b)
    ensures Includes(a + b + c + d, c) && Includes(a + b + c + d, d)
  {
    DisjointUnion(a, b);
    DisjointUnion(a + b, c);
    DisjointUnion(a + b + c, d);
    IncludesTrans(a, a + b, a + b + c);
    IncludesTrans(b, a + b, a + b + c);
    IncludesTrans(a, a + b + c, a + b + c + d);
    IncludesTrans(b, a + b + c, a + b + c + d);
    IncludesTrans(c, a + b + c, a + b + c + d);
  }

  /** The four prefixes give four disjoint sets of four keys of length 22. */
  lemma G2PrefixesDisjoint()
    ensures G2Keys(TARGET_S_G2) !! G2Keys(TARGET_N_G2) && G2Keys(TARGET_S_G2) !! G2Keys(VERIFY_S_G2)
    ensures G2Keys(TARGET_S_G2) !! G2Keys(VERIFY_N_G2) && G2Keys(TARGET_N_G2) !! G2Keys(VERIFY_S_G2)
    ensures G2Keys(TARGET_N_G2) !! G2Keys(VERIFY_N_G2) && G2Keys(VERIFY_S_G2) !! G2Keys(VERIFY_N_G2)
  {
    assert TARGET_S_G2[15] != TARGET_N_G2[15] && VERIFY_S_G2[15] != VERIFY_N_G2[15];
    assert TARGET_S_G2[0] != VERIFY_S_G2[0] && TARGET_N_G2[0] != VERIFY_N_G2[0];
    assert TARGET_S_G2[0] != VERIFY_N_G2[0] && TARGET_N_G2[0] != VERIFY_S_G2[0];
    G2KeysDisjoint(TARGET_S_G2, TARGET_N_G2);
    G2KeysDisjoint(TARGET_S_G2, VERIFY_S_G2);
    G2KeysDisjoint(TARGET_S_G2, VERIFY_N_G2);
    G2KeysDisjoint(TARGET_N_G2, VERIFY_S_G2);
    G2KeysDisjoint(TARGET_N_G2, VERIFY_N_G2);
    G2KeysDisjoint(VERIFY_S_G2, VERIFY_N_G2);
  }

  /** The sixteen G2 entries: four disjoint blocks of four, each kept whole. */
  lemma G2PartLayout<G1, G2, Fq, Fq2, Fr>(backend: Backend<G1, G2, Fq, Fq2, Fr>,
                                          target: ParamsVerifier<G1, G2>, verify: ParamsVerifier<G1, G2>)
    requires G2Encodable(backend, target.sG2) && G2Encodable(backend, backend.g2Neg(target.g2))
    requires G2Encodable(backend, verify.sG2) && G2Encodable(backend, backend.g2Neg(verify.g2))
    ensures var m := G2Part(backend, target, verify);
      && m.Keys == G2Keys(TARGET_S_G2) + G2Keys(TARGET_N_G2) + G2Keys(VERIFY_S_G2) + G2Keys(VERIFY_N_G2)
      && |m| == 16
      && Includes(m, G2Entries(backend, TARGET_S_G2, target.sG2))
      && Includes(m, G2Entries(backend, TARGET_N_G2, backend.g2Neg(target.g2)))
      && Includes(m, G2Entries(backend, VERIFY_S_G2, verify.sG2))
      && Includes(m, G2Entries(backend, VERIFY_N_G2, backend.g2Neg(verify.g2)))
  {
    G2EntriesLayout(backend, TARGET_S_G2, target.sG2);
    G2EntriesLayout(backend, TARGET_N_G2, backend.g2Neg(target.g2));
    G2EntriesLayout(backend, VERIFY_S_G2, verify.sG2);
    G2EntriesLayout(backend, VERIFY_N_G2, backend.g2Neg(verify.g2));
    G2PrefixesDisjoint();
    DisjointUnion4(G2Entries(backend, TARGET_S_G2, target.sG2),
                   G2Entries(backend, TARGET_N_G2, backend.g2Neg(target.g2)),
                   G2Entries(backend, VERIFY_S_G2, verify.sG2),
                   G2Entries(backend, VERIFY_N_G2, backend.g2Neg(verify.g2)));
  }

  /** The eight other keys are distinct, and none has the length of a G2
      key. */
  lemma ScalarKeysShape()
    ensures |ScalarKeys()| == 8
    ensures forall k :: k in ScalarKeys() ==> |k| != 22
  {
    var v, t := "verify_circuit_lagrange_commitments", "target_circuit_lagrange_commitments";
    assert v[0] != t[0];
    var s6 := {"init_scalar", "n_advice", "lookups", "permutation_products", "degree", "evals"};
    assert forall k :: k in s6 ==> |k| < 35;
    assert |s6| == 6;
    assert ScalarKeys() == {v, t} + s6;
  }

  /** The eight other entries are keyed by the eight scalar keys. */
  lemma ScalarEntriesLayout<G1, G2, Fq, Fq2, Fr>(backend: Backend<G1, G2, Fq, Fq2, Fr>,
                                                 target: ParamsVerifier<G1, G2>, verify: ParamsVerifier<G1, G2>,
                                                 vk: VerifyingKey<G1>)
    requires Renderable(backend, target, verify, vk)
    ensures var m := ScalarEntries(backend, target, verify, vk);
      && m.Keys == ScalarKeys()
      && |m| == 8
  {
    var m := ScalarEntries(backend, target, verify, vk);
    assert m.Keys == ScalarKeys();
    ScalarKeysShape();
    assert |m| == |m.Keys|;
  }

  /** No G2 key is one of the eight other keys: they differ in length. */
  lemma G2KeysNotScalar()
    ensures G2Keys(TARGET_S_G2) + G2Keys(TARGET_N_G2) + G2Keys(VERIFY_S_G2) + G2Keys(VERIFY_N_G2) !! ScalarKeys()
  {
    G2KeysShape(TARGET_S_G2);
    G2KeysShape(TARGET_N_G2);
    G2KeysShape(VERIFY_S_G2);
    G2KeysShape(VERIFY_N_G2);
    ScalarKeysShape();
  }

  /** The context holds exactly 24 keys, none inserted twice: each of the
      four G2 encodings and the eight other entries appear in it unchanged. */
  lemma RenderEntriesLayout<G1, G2, Fq, Fq2, Fr>(backend: Backend<G1, G2, Fq, Fq2, Fr>,
                                                 target: ParamsVerifier<G1, G2>, verify: ParamsVerifier<G1, G2>,
                                                 vk: VerifyingKey<G1>)
    requires Renderable(backend, target, verify, vk)
    ensures var m := RenderEntries(backend, target, verify, vk);
      && m.Keys == RenderKeys()
      && |m| == 24
      && Includes(m, G2Entries(backend, TARGET_S_G2, target.sG2))
      && Includes(m, G2Entries(backend, TARGET_N_G2, backend.g2Neg(target.g2)))
      && Includes(m, G2Entries(backend, VERIFY_S_G2, verify.sG2))
      && Includes(m, G2Entries(backend, VERIFY_N_G2, backend.g2Neg(verify.g2)))
      && Includes(m, ScalarEntries(backend, target, verify, vk))
  {
    var g := G2Part(backend, target, verify);
    var e := ScalarEntries(backend, target, verify, vk);
    G2PartLayout(backend, target, verify);
    ScalarEntriesLayout(backend, target, verify, vk);
    G2KeysNotScalar();
    DisjointUnion(g, e);
    IncludesTrans(G2Entries(backend, TARGET_S_G2, target.sG2), g, g + e);
    IncludesTrans(G2Entries(backend, TARGET_N_G2, backend.g2Neg(target.g2)), g, g + e);
    IncludesTrans(G2Entries(backend, VERIFY_S_G2, verify.sG2), g, g + e);
    IncludesTrans(G2Entries(backend, VERIFY_N_G2, backend.g2Neg(verify.g2)), g, g + e);
  }

  /** A key of the right operand of a union keeps the right operand's
      value. */
  lemma UnionLookupRight<K, V>(g: map<K, V>, c: map<K, V>, n: map<K, V>, k: K)
    requires k in n
    ensures k in g + (c + n) && (g + (c + n))[k] == n[k]
  {
  }

  /** A key of the middle operand that the right operand lacks keeps the
      middle operand's value. */
  lemma UnionLookupMiddle<K, V>(g: map<K, V>, c: map<K, V>, n: map<K, V>, k: K)
    requires k in c && k !in n
    ensures k in g + (c + n) && (g + (c + n))[k] == c[k]
  {
  }

  /** The count entries, key by key. */
  lemma CountEntriesLayout<G1>(vk: VerifyingKey<G1>)
    requires vk.cs.degree >= 3 && VkEvals(vk).Some?
    ensures var n := CountEntries(vk);
      && "n_advice" in n && n["n_advice"] == Count(vk.cs.numAdviceColumns)
      && "lookups" in n && n["lookups"] == Count(vk.cs.numLookups)
      && "permutation_products" in n && n["permutation_products"] == Count(PermutationProducts(vk.cs))
      && "degree" in n && n["degree"] == Count(vk.quotientPolyDegree)
      && "evals" in n && n["evals"] == Count(VkEvals(vk).value)
      && n["evals"] == Count(|vk.cs.instanceQueries| + |vk.cs.adviceQueries| + |vk.cs.fixedQueries|
                             + |vk.permutationCommitments| + 3 * PermutationProducts(vk.cs) + 5 * vk.cs.numLookups)
      && "init_scalar" !in n
  {
    var n := CountEntries(vk);
    assert |"init_scalar"| == 11;
    assert n.Keys == {"n_advice", "lookups", "permutation_products", "degree", "evals"};
  }

  /** The count entries are inserted last: the context keeps them. */
  lemma RenderEntriesCount<G1, G2, Fq, Fq2, Fr>(backend: Backend<G1, G2, Fq, Fq2, Fr>,
                                                target: ParamsVerifier<G1, G2>, verify: ParamsVerifier<G1, G2>,
                                                vk: VerifyingKey<G1>, k: string)
    requires Renderable(backend, target, verify, vk)
    requires k in CountEntries(vk)
    ensures k in RenderEntries(backend, target, verify, vk)
    ensures RenderEntries(backend, target, verify, vk)[k] == CountEntries(vk)[k]
  {
    UnionLookupRight(G2Part(backend, target, verify), CommitmentEntries(backend, target, verify, vk.pinned),
                     CountEntries(vk), k);
  }

  /** The advice-column count, the lookup count and the quotient-polynomial
      degree reach the context unchanged. */
  lemma RenderCounts<G1, G2, Fq, Fq2, Fr>(backend: Backend<G1, G2, Fq, Fq2, Fr>,
                                          target: ParamsVerifier<G1, G2>, verify: ParamsVerifier<G1, G2>,
                                          vk: VerifyingKey<G1>)
    requires Renderable(backend, target, verify, vk)
    ensures var m := RenderEntries(backend, target, verify, vk);
      && m["n_advice"] == Count(vk.cs.numAdviceColumns)
      && m["lookups"] == Count(vk.cs.numLookups)
      && m["degree"] == Count(vk.quotientPolyDegree)
  {
    CountEntriesLayout(vk);
    RenderEntriesCount(backend, target, verify, vk, "n_advice");
    RenderEntriesCount(backend, target, verify, vk, "lookups");
    RenderEntriesCount(backend, target, verify, vk, "degree");
  }

  /** The permutation-product count is the number of chunks, which
      `PermutationProductsCount` shows to be ceil(columns / (degree - 2)). */
  lemma RenderPermutationProducts<G1, G2, Fq, Fq2, Fr>(backend: Backend<G1, G2, Fq, Fq2, Fr>,
                                                       target: ParamsVerifier<G1, G2>, verify: ParamsVerifier<G1, G2>,
                                                       vk: VerifyingKey<G1>)
    requires Renderable(backend, target, verify, vk)
    ensures RenderEntries(backend, target, verify, vk)["permutation_products"] == Count(PermutationProducts(vk.cs))
  {
    assert CountEntries(vk)["permutation_products"] == Count(PermutationProducts(vk.cs));
    RenderEntriesCount(backend, target, verify, vk, "permutation_products");
  }

  /** The evaluation count is the formula with the `+ 1` and `- 1`
      cancelled. */
  lemma RenderEvals<G1, G2, Fq, Fq2, Fr>(backend: Backend<G1, G2, Fq, Fq2, Fr>,
                                         target: ParamsVerifier<G1, G2>, verify: ParamsVerifier<G1, G2>,
                                         vk: VerifyingKey<G1>)
    requires Renderable(backend, target, verify, vk)
    ensures RenderEntries(backend, target, verify, vk)["evals"]
         == Count(|vk.cs.instanceQueries| + |vk.cs.adviceQueries| + |vk.cs.fixedQueries|
                  + |vk.permutationCommitments| + 3 * PermutationProducts(vk.cs) + 5 * vk.cs.numLookups)
  {
    CountEntriesLayout(vk);
    RenderEntriesCount(backend, target, verify, vk, "evals");
  }

  /** The two list keys hold the two Lagrange-commitment lists. */
  lemma CommitmentEntriesLists<G1, G2, Fq, Fq2, Fr>(backend: Backend<G1, G2, Fq, Fq2, Fr>,
                                                    target: ParamsVerifier<G1, G2>, verify: ParamsVerifier<G1, G2>,
                                                    pinned: seq<byte>)
    requires forall i :: 0 <= i < |verify.gLagrange| ==> G1Encodable(backend, verify.gLagrange[i])
    requires forall i :: 0 <= i < |target.gLagrange| ==> G1Encodable(backend, target.gLagrange[i])
    ensures var c := CommitmentEntries(backend, target, verify, pinned);
      && c["verify_circuit_lagrange_commitments"] == Pairs(LagrangeCommitments(backend, verify.gLagrange))
      && c["target_circuit_lagrange_commitments"] == Pairs(LagrangeCommitments(backend, target.gLagrange))
  {
    var v, t := "verify_circuit_lagrange_commitments", "target_circuit_lagrange_commitments";
    assert v[0] != t[0] && |v| == |t| == 35 && |"init_scalar"| == 11;
  }

  /** No count key is one of the two list keys: the counts' keys are
      shorter. */
  lemma ListKeysNotCounts<G1>(vk: VerifyingKey<G1>)
    requires vk.cs.degree >= 3 && VkEvals(vk).Some?
    ensures "verify_circuit_lagrange_commitments" !in CountEntries(vk)
    ensures "target_circuit_lagrange_commitments" !in CountEntries(vk)
  {
    assert |"verify_circuit_lagrange_commitments"| == |"target_circuit_lagrange_commitments"| == 35;
    assert forall k :: k in CountEntries(vk) ==> |k| < 35;
  }

  /** Each Lagrange-commitment list reaches the context whole: entry `i` of
      the list under a circuit's key is the pair of that circuit's point
      `i`. */
  lemma RenderLagrange<G1, G2, Fq, Fq2, Fr>(backend: Backend<G1, G2, Fq, Fq2, Fr>,
                                            target: ParamsVerifier<G1, G2>, verify: ParamsVerifier<G1, G2>,
                                            vk: VerifyingKey<G1>)
    requires Renderable(backend, target, verify, vk)
    ensures var m := RenderEntries(backend, target, verify, vk);
      && "verify_circuit_lagrange_commitments" in m && "target_circuit_lagrange_commitments" in m
      && m["verify_circuit_lagrange_commitments"] == Pairs(LagrangeCommitments(backend, verify.gLagrange))
      && m["target_circuit_lagrange_commitments"] == Pairs(LagrangeCommitments(backend, target.gLagrange))
  {
    CommitmentEntriesLists(backend, target, verify, vk.pinned);
    ListKeysNotCounts(vk);
    var g, c, n := G2Part(backend, target, verify), CommitmentEntries(backend, target, verify, vk.pinned), CountEntries(vk);
    UnionLookupMiddle(g, c, n, "verify_circuit_lagrange_commitments");
    UnionLookupMiddle(g, c, n, "target_circuit_lagrange_commitments");
  }

  /** The seed entry is the decimal value of the scalar derived from the
      pinned description. */
  lemma RenderSeed<G1, G2, Fq, Fq2, Fr>(backend: Backend<G1, G2, Fq, Fq2, Fr>,
                                        target: ParamsVerifier<G1, G2>, verify: ParamsVerifier<G1, G2>,
                                        vk: VerifyingKey<G1>)
    requires Renderable(backend, target, verify, vk)
    ensures RenderEntries(backend, target, verify, vk)["init_scalar"]
         == Text(Dec(backend.frToBn(InitScalar(backend.blake2b, backend.frFromBytesWide, vk.pinned))))
  {
    CountEntriesLayout(vk);
    var g, c, n := G2Part(backend, target, verify), CommitmentEntries(backend, target, verify, vk.pinned), CountEntries(vk);
    UnionLookupMiddle(g, c, n, "init_scalar");
  }

  /** The seed depends on nothing but the pinned description: two renders
      whose keys pin the same description get the same `init_scalar`,
      whatever their SRS points and counts. */
  lemma InitScalarDependsOnPinnedOnly<G1, G2, Fq, Fq2, Fr>(backend: Backend<G1, G2, Fq, Fq2, Fr>,
                                                           target1: ParamsVerifier<G1, G2>, verify1: ParamsVerifier<G1, G2>,
                                                           vk1: VerifyingKey<G1>,
                                                           target2: ParamsVerifier<G1, G2>, verify2: ParamsVerifier<G1, G2>,
                                                           vk2: VerifyingKey<G1>)
    requires Renderable(backend, target1, verify1, vk1) && Renderable(backend, target2, verify2, vk2)
    requires vk1.pinned == vk2.pinned
    ensures RenderEntries(backend, target1, verify1, vk1)["init_scalar"]
         == RenderEntries(backend, target2, verify2, vk2)["init_scalar"]
  {
    RenderSeed(backend, target1, verify1, vk1);
    RenderSeed(backend, target2, verify2, vk2);
  }

  /** EIP-197 order end to end: when both coordinates of a point serialise
      natively as `c0 + c1 * i`, `_x0`/`_y0` hold the imaginary parts `c1`
      and `_x1`/`_y1` the real parts `c0`. */
  lemma G2EntriesEip197<G1, G2, Fq, Fq2, Fr>(backend: Backend<G1, G2, Fq, Fq2, Fr>, prefix: string, g2: G2,
                                             x0: nat, x1: nat, y0: nat, y1: nat)
    requires backend.g2Coordinates(g2).Some?
    requires backend.fq2Write(backend.g2Coordinates(g2).value.0) == NativeFq2Bytes(x0, x1)
    requires backend.fq2Write(backend.g2Coordinates(g2).value.1) == NativeFq2Bytes(y0, y1)
    requires x0 < Pow256(32) && x1 < Pow256(32) && y0 < Pow256(32) && y1 < Pow256(32)
    ensures G2Encodable(backend, g2)
    ensures var m := G2Entries(backend, prefix, g2);
      && m[G2Key(prefix, "x0")] == Text(Dec(x1)) && m[G2Key(prefix, "x1")] == Text(Dec(x0))
      && m[G2Key(prefix, "y0")] == Text(Dec(y1)) && m[G2Key(prefix, "y1")] == Text(Dec(y0))
  {
    G2FieldToBnSwaps(x0, x1);
    G2FieldToBnSwaps(y0, y1);
    G2EntriesLayout(backend, prefix, g2);
  }
}
