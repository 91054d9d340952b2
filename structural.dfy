/** The structural counts `solidity_render` derives from the verifying key:
    the number of permutation-product chunks and the number of opening
    evaluations, both in 64-bit `usize` arithmetic. */
module Structural {
  import opened Bytes
  import opened Wrappers

  datatype ColumnType = Advice | Fixed | Instance

  /** A circuit column, as the permutation argument lists it. */
  datatype Column = Column(index: nat, columnType: ColumnType)

  /** A query of one column at a rotation of the evaluation point. */
  datatype Query = Query(column: nat, rotation: int)

  /** The part of the constraint system the export reads. `numLookups` is
      the length of the lookup-argument list; `degree` is the value of the
      library accessor `cs.degree()`. */
  datatype ConstraintSystem = ConstraintSystem(
    numAdviceColumns: nat,
    instanceQueries: seq<Query>,
    adviceQueries: seq<Query>,
    fixedQueries: seq<Query>,
    permutationColumns: seq<Column>,
    numLookups: nat,
    degree: nat)

  /** The part of the verifying key the export reads: its constraint system,
      the permutation argument's commitments, the quotient-polynomial degree
      of its domain, and the bytes of the Debug rendering of its pinned
      description. */
  datatype VerifyingKey<G1> = VerifyingKey(
    cs: ConstraintSystem,
    permutationCommitments: seq<G1>,
    quotientPolyDegree: nat,
    pinned: seq<byte>)

  /** The largest `usize` on a 64-bit target. */
  const USIZE_MAX: nat := 0xFFFF_FFFF_FFFF_FFFF

  /** `usize` addition and multiplication as a debug build performs them:
      `None` where the build panics on overflow. */
  function CheckedAdd(a: nat, b: nat): (r: Option<nat>)
    ensures r.Some? <==> a + b <= USIZE_MAX
    ensures r.Some? ==> r.value == a + b
  {
    if a + b <= USIZE_MAX then Some(a + b) else None
  }

  function CheckedMul(a: nat, b: nat): (r: Option<nat>)
    ensures r.Some? <==> a * b <= USIZE_MAX
    ensures r.Some? ==> r.value == a * b
  {
    if a * b <= USIZE_MAX then Some(a * b) else None
  }

  /** ceil(n / d) for a positive divisor: the least multiple count of `d`
      that covers `n`. */
  function CeilDiv(n: nat, d: nat): (q: nat)
    requires d > 0
    ensures n <= d * q < n + d
  {
    DivModDecompose(n + d - 1, d);
    (n + d - 1) / d
  }

  /** `slice.chunks(size)`: consecutive pieces of `size` elements, the last
      one possibly shorter; no piece for an empty slice. */
  function Chunks<T>(s: seq<T>, size: nat): (r: seq<seq<T>>)
    requires size > 0
    ensures forall i :: 0 <= i < |r| ==> 0 < |r[i]| <= size
    ensures forall i :: 0 <= i < |r| - 1 ==> |r[i]| == size
    decreases |s|
  {
    if |s| == 0 then []
    else if |s| <= size then [s]
    else [s[..size]] + Chunks(s[size..], size)
  }

  /** The pieces joined in order. */
  function Flatten<T>(ss: seq<seq<T>>): (s: seq<T>)
    ensures |ss| > 0 ==> |ss[0]| <= |s| && s[..|ss[0]|] == ss[0]
  {
    if |ss| == 0 then [] else ss[0] + Flatten(ss[1..])
  }

  /** The chunks, put back together, are the slice. */
  lemma {:induction false} ChunksFlatten<T>(s: seq<T>, size: nat)
    requires size > 0
    ensures Flatten(Chunks(s, size)) == s
    decreases |s|
  {
    if |s| > size {
      var r := Chunks(s, size);
      assert r[1..] == Chunks(s[size..], size);
      ChunksFlatten(s[size..], size);
      assert s == s[..size] + s[size..];
    } else if |s| > 0 {
      assert Flatten(Chunks(s, size)) == s + Flatten([]);
    }
  }

  lemma DivStep(x: nat, d: nat)
    requires d > 0 && x >= d
    ensures (x - d) / d + 1 == x / d
  {
    var q, r := (x - d) / d, (x - d) % d;
    DivModDecompose(x - d, d);
    assert x == d * (q + 1) + r;
    DivModUnique(x, d, q + 1, r);
  }

  /** There are ceil(|s| / size) chunks. */
  lemma {:induction false} ChunksCount<T>(s: seq<T>, size: nat)
    requires size > 0
    ensures |Chunks(s, size)| == CeilDiv(|s|, size)
    decreases |s|
  {
    if |s| > size {
      ChunksCount(s[size..], size);
      DivStep(|s| + size - 1, size);
    } else if |s| > 0 {
      DivModUnique(|s| + size - 1, size, 1, |s| - 1);
    } else {
      DivModUnique(size - 1, size, 0, size - 1);
    }
  }

  /** `permutation_products`: the number of chunks of size `degree - 2` of
      the permutation columns. The source subtracts in `usize` and calls
      `chunks`, which panic for a degree below 2 and for a chunk size of 0,
      hence the precondition. */
  function PermutationProducts(cs: ConstraintSystem): (n: nat)
    requires cs.degree >= 3
    ensures n == CeilDiv(|cs.permutationColumns|, cs.degree - 2)
  {
    ChunksCount(cs.permutationColumns, cs.degree - 2);
    |Chunks(cs.permutationColumns, cs.degree - 2)|
  }

  /** The chunk count is ceil(columns / (degree - 2)), and it is zero exactly
      when there are no permutation columns. */
  lemma PermutationProductsCount(cs: ConstraintSystem)
    requires cs.degree >= 3
    ensures PermutationProducts(cs) == CeilDiv(|cs.permutationColumns|, cs.degree - 2)
    ensures PermutationProducts(cs) == 0 <==> |cs.permutationColumns| == 0
  {
    ChunksCount(cs.permutationColumns, cs.degree - 2);
  }

  /** `evals`, evaluated left to right in `usize` as written:
      `iq + aq + fq + 1 + pc + 3 * pp - 1 + 5 * lookups`. It fails only by
      overflow, never by the subtraction (the `+ 1` comes first, so the
      natural-number subtraction below is checked never to go negative), and its
      value is `iq + aq + fq + pc + 3 * pp + 5 * lookups`. */
  function Evals(iq: nat, aq: nat, fq: nat, pc: nat, pp: nat, lookups: nat): (r: Option<nat>)
    ensures var e := iq + aq + fq + pc + 3 * pp;
      r.Some? <==> e + 1 <= USIZE_MAX && e + 5 * lookups <= USIZE_MAX
    ensures r.Some? ==> r.value == iq + aq + fq + pc + 3 * pp + 5 * lookups
  {
    var a :- CheckedAdd(iq, aq);
    var b :- CheckedAdd(a, fq);
    var c :- CheckedAdd(b, 1);
    var d :- CheckedAdd(c, pc);
    var m3 :- CheckedMul(3, pp);
    var e :- CheckedAdd(d, m3);
    var f: nat := e - 1;
    var m5 :- CheckedMul(5, lookups);
    CheckedAdd(f, m5)
  }

  /** The evaluation count of a verifying key: present exactly when the
      `usize` sums do not overflow, and then the formula's value. */
  function VkEvals<G1>(vk: VerifyingKey<G1>): (r: Option<nat>)
    requires vk.cs.degree >= 3
    ensures var e := |vk.cs.instanceQueries| + |vk.cs.adviceQueries| + |vk.cs.fixedQueries|
                     + |vk.permutationCommitments| + 3 * PermutationProducts(vk.cs);
      && (r.Some? <==> e + 1 <= USIZE_MAX && e + 5 * vk.cs.numLookups <= USIZE_MAX)
      && (r.Some? ==> r.value == e + 5 * vk.cs.numLookups)
  {
    Evals(|vk.cs.instanceQueries|, |vk.cs.adviceQueries|, |vk.cs.fixedQueries|,
          |vk.permutationCommitments|, PermutationProducts(vk.cs), vk.cs.numLookups)
  }

  /** The worked example: 1 instance query, 5 advice queries, 2 fixed
      queries, 2 permutation commitments, 2 permutation products and 3
      lookups give 1 + 5 + 2 + 1 + 2 + 3 * 2 - 1 + 5 * 3 = 31 evaluations. */
  lemma EvalsExample()
    ensures Evals(1, 5, 2, 2, 2, 3) == Some(31)
  {
  }
}
