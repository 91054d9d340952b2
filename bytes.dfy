/** Little-endian byte strings and the natural numbers they denote: the
    behaviour of `BigUint::from_bytes_le` and of `u64::to_le_bytes` that the
    verifier-parameter export relies on. */
module Bytes {

  /** An unsigned 8-bit value (Rust `u8`). */
  type byte = x: nat | x < 256

  /** 256^n: the number of values an n-byte string can denote. */
  function Pow256(n: nat): (r: nat)
    ensures r >= 1
  {
    if n == 0 then 1 else 256 * Pow256(n - 1)
  }

  /** The natural number whose little-endian base-256 digits are `b`
      (`BigUint::from_bytes_le`); it always fits in |b| bytes. */
  function FromBytesLe(b: seq<byte>): (r: nat)
    ensures r < Pow256(|b|)
  {
    if |b| == 0 then 0 else b[0] + 256 * FromBytesLe(b[1..])
  }

  /** The `len` least significant base-256 digits of `n`, least significant
      first (`to_le_bytes` for a `len`-byte unsigned integer). */
  function ToBytesLe(n: nat, len: nat): (r: seq<byte>)
    ensures |r| == len
  {
    if len == 0 then [] else [n % 256] + ToBytesLe(n / 256, len - 1)
  }

  /** Division by a positive divisor is determined by any decomposition
      `n == d * q + r` with `0 <= r < d`. */
  lemma DivModUnique(n: nat, d: nat, q: nat, r: nat)
    requires 0 < d && r < d && n == d * q + r
    ensures n / d == q && n % d == r
  {
    var q', r' := n / d, n % d;
    assert n == d * q' + r';
    if q' < q {
      assert d * q' + d <= d * q by { MulMonotone(d, q' + 1, q); }
      assert false;
    } else if q < q' {
      assert d * q + d <= d * q' by { MulMonotone(d, q + 1, q'); }
      assert false;
    }
  }

  lemma MulMonotone(d: nat, a: nat, b: nat)
    requires a <= b
    ensures d * a <= d * b
  {
  }

  lemma DivModDecompose(q: nat, p: nat)
    requires p > 0
    ensures q == p * (q / p) + q % p && q % p < p && q / p >= 0
  {
  }

  lemma ScaleSum(whole: nat, head: nat, a0: nat, x: nat, p: nat, pa: nat, y: nat)
    requires whole == a0 + 256 * (x + p * y) && head == a0 + 256 * x && pa == 256 * p
    ensures whole == head + pa * y
  {
    assert 256 * (p * y) == (256 * p) * y;
  }

  /** Regrouping of a two-level base decomposition: digits below 256 and
      below `p` combine into one digit below 256 * p. */
  lemma Recompose(n: nat, q: nat, r0: nat, p: nat, q1: nat, r1: nat)
    requires r0 < 256 && r1 < p
    requires n == 256 * q + r0 && q == p * q1 + r1
    ensures n == (256 * p) * q1 + (256 * r1 + r0)
    ensures 256 * r1 + r0 < 256 * p
  {
    assert 256 * (p * q1) == (256 * p) * q1;
  }

  /** Encoding a number in `len` bytes keeps it modulo 256^len. */
  lemma {:induction false} FromToBytesLe(n: nat, len: nat)
    ensures FromBytesLe(ToBytesLe(n, len)) == n % Pow256(len)
  {
    if len > 0 {
      var enc := ToBytesLe(n, len);
      var q := n / 256;
      assert enc[0] == n % 256 && enc[1..] == ToBytesLe(q, len - 1);
      FromToBytesLe(q, len - 1);
      var p := Pow256(len - 1);
      assert FromBytesLe(enc) == n % 256 + 256 * (q % p);
      var q1, r1 := q / p, q % p;
      DivModDecompose(q, p);
      DivModDecompose(n, 256);
      Recompose(n, q, n % 256, p, q1, r1);
      DivModUnique(n, 256 * p, q1, 256 * r1 + n % 256);
    }
  }

  /** Decoding `b` and re-encoding the result in |b| bytes gives `b` back:
      little-endian decoding is injective on strings of one length. */
  lemma {:induction false} ToFromBytesLe(b: seq<byte>)
    ensures ToBytesLe(FromBytesLe(b), |b|) == b
  {
    if |b| > 0 {
      var n := FromBytesLe(b);
      var tail := FromBytesLe(b[1..]);
      DivModUnique(n, 256, tail, b[0]);
      ToFromBytesLe(b[1..]);
    }
  }

  /** Little-endian decoding of a concatenation: the second part is worth
      256^|a| times its own value. */
  lemma {:induction false} FromBytesLeAppend(a: seq<byte>, b: seq<byte>)
    ensures FromBytesLe(a + b) == FromBytesLe(a) + Pow256(|a|) * FromBytesLe(b)
  {
    if |a| > 0 {
      assert (a + b)[1..] == a[1..] + b;
      FromBytesLeAppend(a[1..], b);
      var p, x, y := Pow256(|a| - 1), FromBytesLe(a[1..]), FromBytesLe(b);
      ScaleSum(FromBytesLe(a + b), FromBytesLe(a), a[0], x, p, Pow256(|a|), y);
    } else {
      assert a + b == b;
    }
  }
}
