/**
  hashedVector and denseSimilarity (memory/index.ts): features are hashed into 256 signed buckets,
  and two texts are compared by the cosine of their vectors, cut off at zero. Bucket counts are
  integers; the final division is over the reals, with the square root a parameter.
 */
module DenseSimilarity {
  import opened TextChunks

  const BUCKETS: nat := 256

  type Vector = v: seq<int> | |v| == BUCKETS witness seq(BUCKETS, i => 0)

  /** hashToken: 32-bit FNV-1a over the code units. */
  function HashToken(token: Text): bv32
    decreases |token|
  {
    if token == [] then 2166136261
    else (HashToken(token[..|token| - 1]) ^ (token[|token| - 1] as int as bv32)) * 16777619
  }

  /** The bucket of a feature, and what it adds there. */
  function Bucket(feature: Text): (b: nat)
    ensures b < BUCKETS
  {
    (HashToken(feature) as nat) % BUCKETS
  }

  function Sign(feature: Text): int {
    if (HashToken(feature) as nat) % 2 == 0 then 1 else -1
  }

  /** The three-character windows of a text that contain no run of two spaces. */
  function Grams(s: Text, index: nat): seq<Text>
    decreases |s| - index
  {
    if index + 2 >= |s| then []
    else
      (if (IsSpace(s[index]) && IsSpace(s[index + 1])) || (IsSpace(s[index + 1]) && IsSpace(s[index + 2])) then []
       else [s[index..index + 3]])
      + Grams(s, index + 1)
  }

  /** The signed number of features in a bucket. */
  function Weight(features: seq<Text>, bucket: nat): int
    decreases |features|
  {
    if features == [] then 0
    else
      var f := features[|features| - 1];
      Weight(features[..|features| - 1], bucket) + (if Bucket(f) == bucket then Sign(f) else 0)
  }

  function HashedVector(features: seq<Text>): Vector {
    seq(BUCKETS, i requires 0 <= i < BUCKETS => Weight(features, i))
  }

  /** hashedVector: tokens are those of memoryTokens, normalized the NFKC lower-case text. */
  method BuildVector(normalized: Text, tokens: seq<Text>) returns (v: array<int>)
    ensures fresh(v) && v.Length == BUCKETS
    ensures v[..] == HashedVector(tokens + Grams(normalized, 0))
  {
    v := new int[BUCKETS](i => 0);
    var features := tokens;
    var index := 0;
    while index + 2 < |normalized|
      invariant features + Grams(normalized, index) == tokens + Grams(normalized, 0)
      decreases |normalized| - index
    {
      var gram := normalized[index..index + 3];
      if !((IsSpace(gram[0]) && IsSpace(gram[1])) || (IsSpace(gram[1]) && IsSpace(gram[2]))) {
        features := features + [gram];
      }
      index := index + 1;
    }
    for k := 0 to |features|
      invariant forall b :: 0 <= b < BUCKETS ==> v[b] == Weight(features[..k], b)
    {
      assert features[..k + 1][..k] == features[..k];
      var f := features[k];
      v[Bucket(f)] := v[Bucket(f)] + Sign(f);
    }
    assert features[..|features|] == features == tokens + Grams(normalized, 0);
    assert forall b :: 0 <= b < BUCKETS ==> v[..][b] == HashedVector(features)[b];
  }

  // ---------------------------------------------------------------- the accumulation loop

  function Dot(a: seq<int>, b: seq<int>): int
    requires |a| == |b|
    decreases |a|
  {
    if a == [] then 0 else Dot(a[..|a| - 1], b[..|b| - 1]) + a[|a| - 1] * b[|b| - 1]
  }

  /** f is the square root on the non-negative reals. */
  ghost predicate IsSqrt(f: real -> real) {
    forall x: real :: x >= 0.0 ==> f(x) >= 0.0 && f(x) * f(x) == x
  }

  function Cosine(a: Vector, b: Vector, sqrt: real -> real): real
    requires IsSqrt(sqrt)
  {
    var n := Dot(a, a) * Dot(b, b);
    if Dot(a, a) == 0 || Dot(b, b) == 0 then 0.0
    else
      NormsPositive(a, b);
      RootPositive(n as real, sqrt);
      var c := Dot(a, b) as real / sqrt(n as real);
      if c < 0.0 then 0.0 else c
  }

  /** denseSimilarity on two vectors. */
  method Similarity(a: array<int>, b: array<int>, sqrt: real -> real) returns (s: real)
    requires a.Length == BUCKETS && b.Length == BUCKETS && IsSqrt(sqrt)
    ensures s == Cosine(a[..], b[..], sqrt)
  {
    var dot, normA, normB := 0, 0, 0;
    for index := 0 to BUCKETS
      invariant dot == Dot(a[..index], b[..index])
      invariant normA == Dot(a[..index], a[..index])
      invariant normB == Dot(b[..index], b[..index])
    {
      assert a[..index + 1][..index] == a[..index] && b[..index + 1][..index] == b[..index];
      dot := dot + a[index] * b[index];
      normA := normA + a[index] * a[index];
      normB := normB + b[index] * b[index];
    }
    assert a[..BUCKETS] == a[..] && b[..BUCKETS] == b[..];
    if normA == 0 || normB == 0 {
      return 0.0;
    }
    NormsPositive(a[..], b[..]);
    RootPositive((normA * normB) as real, sqrt);
    s := dot as real / sqrt((normA * normB) as real);
    if s < 0.0 {
      s := 0.0;
    }
  }

  lemma RootPositive(x: real, sqrt: real -> real)
    requires IsSqrt(sqrt) && x > 0.0
    ensures sqrt(x) > 0.0
  {
    assert sqrt(x) * sqrt(x) == x;
  }

  lemma {:induction false} NormNonNegative(a: seq<int>)
    ensures Dot(a, a) >= 0
    decreases |a|
  {
    if a != [] {
      NormNonNegative(a[..|a| - 1]);
      assert a[|a| - 1] * a[|a| - 1] >= 0;
    }
  }

  lemma NormsPositive(a: seq<int>, b: seq<int>)
    requires Dot(a, a) != 0 && Dot(b, b) != 0
    ensures Dot(a, a) * Dot(b, b) > 0
  {
    NormNonNegative(a);
    NormNonNegative(b);
    ProductPositive(Dot(a, a), Dot(b, b));
  }

  lemma ProductPositive(x: int, y: int)
    requires x > 0 && y > 0
    ensures x * y > 0
  {}

  lemma {:induction false} DotSymmetric(a: seq<int>, b: seq<int>)
    requires |a| == |b|
    ensures Dot(a, b) == Dot(b, a)
    decreases |a|
  {
    if a != [] {
      DotSymmetric(a[..|a| - 1], b[..|b| - 1]);
      assert a[|a| - 1] * b[|b| - 1] == b[|b| - 1] * a[|a| - 1];
    }
  }

  // ---------------------------------------------------------------- Cauchy-Schwarz

  lemma SquareNonNegative(x: int)
    ensures x * x >= 0
  {}

  /** From y^2 <= x^2 and x >= 0, y <= x. */
  lemma RootMonotone(x: int, y: int)
    requires x >= 0 && y * y <= x * x
    ensures y <= x
  {
    if y > x {
      SquareMonotone(x, y);
    }
  }

  lemma SquareMonotone(x: int, y: int)
    requires 0 <= x < y
    ensures x * x < y * y
  {
    assert x * x <= x * y < y * y;
  }

  /** 2 D p q <= A q^2 + B p^2 whenever D^2 <= A B. */
  lemma CrossTerm(A: int, B: int, D: int, p: int, q: int)
    requires A >= 0 && B >= 0 && D * D <= A * B
    ensures 2 * D * p * q <= A * (q * q) + B * (p * p)
  {
    var x, y := A * (q * q), B * (p * p);
    var s := x + y;
    var t := 2 * D * p * q;
    SquareNonNegative(p);
    SquareNonNegative(q);
    assert x >= 0 && y >= 0;
    calc {
      t * t;
      4 * (D * D) * ((p * p) * (q * q));
    <= { SquareNonNegative(p * q);
         assert (p * p) * (q * q) == (p * q) * (p * q);
         Scale(D * D, A * B, (p * p) * (q * q)); }
      4 * (A * B) * ((p * p) * (q * q));
    == { assert (A * B) * ((p * p) * (q * q)) == (A * (q * q)) * (B * (p * p)); }
      4 * (x * y);
    <= { SquareNonNegative(x - y);
         assert (x + y) * (x + y) == (x - y) * (x - y) + 4 * (x * y); }
      s * s;
    }
    RootMonotone(s, t);
  }

  lemma Scale(a: int, b: int, c: int)
    requires a <= b && c >= 0
    ensures 4 * a * c <= 4 * b * c
  {
    assert (b - a) * c >= 0;
  }

  /** The squared dot product is at most the product of the squared norms. */
  lemma {:induction false} CauchySchwarz(a: seq<int>, b: seq<int>)
    requires |a| == |b|
    ensures Dot(a, b) * Dot(a, b) <= Dot(a, a) * Dot(b, b)
    decreases |a|
  {
    if a != [] {
      var n := |a| - 1;
      CauchySchwarz(a[..n], b[..n]);
      NormNonNegative(a[..n]);
      NormNonNegative(b[..n]);
      CauchyStep(Dot(a[..n], a[..n]), Dot(b[..n], b[..n]), Dot(a[..n], b[..n]), a[n], b[n]);
    }
  }

  lemma CauchyStep(A: int, B: int, D: int, p: int, q: int)
    requires A >= 0 && B >= 0 && D * D <= A * B
    ensures (D + p * q) * (D + p * q) <= (A + p * p) * (B + q * q)
  {
    CrossTerm(A, B, D, p, q);
    calc {
      (D + p * q) * (D + p * q);
      D * D + 2 * D * p * q + (p * p) * (q * q);
    <=
      A * B + (A * (q * q) + B * (p * p)) + (p * p) * (q * q);
      (A + p * p) * (B + q * q);
    }
  }

  // ---------------------------------------------------------------- the similarity

  lemma QuotientAtMostOne(d: real, r: real)
    requires r > 0.0 && (d <= 0.0 || d * d <= r * r)
    ensures d / r <= 1.0
  {
    if d > r {
      RealSquareMonotone(r, d);
    }
    assert d <= r;
  }

  lemma RealSquareMonotone(x: real, y: real)
    requires 0.0 < x < y
    ensures x * x < y * y
  {
    assert x * x <= x * y < y * y;
  }

  /** denseSimilarity lies in [0,1] and is symmetric. */
  lemma {:induction false} CosineRange(a: Vector, b: Vector, sqrt: real -> real)
    requires IsSqrt(sqrt)
    ensures 0.0 <= Cosine(a, b, sqrt) <= 1.0
    ensures Cosine(a, b, sqrt) == Cosine(b, a, sqrt)
  {
    DotSymmetric(a, b);
    assert Dot(a, a) * Dot(b, b) == Dot(b, b) * Dot(a, a);
    if Dot(a, a) != 0 && Dot(b, b) != 0 {
      NormsPositive(a, b);
      var n := Dot(a, a) * Dot(b, b);
      var d := Dot(a, b);
      RootPositive(n as real, sqrt);
      CauchySchwarz(a, b);
      SquareOfReal(d);
      assert d as real * d as real <= n as real;
      QuotientAtMostOne(d as real, sqrt(n as real));
    }
  }

  lemma SquareOfReal(d: int)
    ensures d as real * d as real == (d * d) as real
  {}

  /** Two texts with the same non-zero vector have similarity 1. */
  lemma {:induction false} CosineOfItself(a: Vector, sqrt: real -> real)
    requires IsSqrt(sqrt)
    ensures Cosine(a, a, sqrt) == if exists i :: 0 <= i < BUCKETS && a[i] != 0 then 1.0 else 0.0
  {
    NormNonNegative(a);
    ZeroNorm(a);
    var d := Dot(a, a);
    if d != 0 {
      SquareOfReal(d);
      RootPositive((d * d) as real, sqrt);
      RootOfSquare(d as real, sqrt);
      var x := d as real;
      assert (d * d) as real == x * x;
      assert sqrt((d * d) as real) == x && x / x == 1.0;
      assert exists i :: 0 <= i < BUCKETS && a[i] != 0;
    }
  }

  lemma RootOfSquare(x: real, sqrt: real -> real)
    requires IsSqrt(sqrt) && x > 0.0
    ensures sqrt(x * x) == x
  {
    var r := sqrt(x * x);
    assert x * x >= 0.0;
    assert r * r == x * x && r >= 0.0;
    assert (r - x) * (r + x) == r * r - x * x == 0.0;
    ZeroFactor(r - x, r + x);
  }

  lemma ZeroFactor(a: real, b: real)
    requires a * b == 0.0 && b > 0.0
    ensures a == 0.0
  {
    if a > 0.0 {
      ProductAboveZero(a, b);
    } else if a < 0.0 {
      ProductAboveZero(-a, b);
    }
  }

  lemma ProductAboveZero(a: real, b: real)
    requires a > 0.0 && b > 0.0
    ensures a * b > 0.0
  {}

  lemma {:induction false} ZeroNorm(a: seq<int>)
    ensures Dot(a, a) == 0 <==> forall i :: 0 <= i < |a| ==> a[i] == 0
    decreases |a|
  {
    if a != [] {
      var n := |a| - 1;
      ZeroNorm(a[..n]);
      NormNonNegative(a[..n]);
      assert forall i :: 0 <= i < n ==> a[..n][i] == a[i];
      assert a[n] * a[n] >= 0 && (a[n] * a[n] == 0 <==> a[n] == 0);
    }
  }
}
