module Bounds {
  // Bucket keys and bucket bounds of native histograms (Prometheus Native
  // Histograms specification, sections "Schema" and "Buckets").
  //
  // A positive float64 is frac * 2^exp with frac in [0.5, 1), as math.Frexp gives
  // it, so magnitudes compare by exp first and frac second.  The digits of the
  // table of bounds do not matter here: only that for each schema they are 2^schema
  // increasing fractions from 0.5 on, and that a schema has every second bound of
  // the next one.

  datatype Mag = Nil | Mag(frac: real, exp: int)

  predicate Less(a: Mag, b: Mag) {
    match (a, b)
    case (_, Nil) => false
    case (Nil, Mag(_, _)) => true
    case (Mag(f, e), Mag(g, d)) => e < d || (e == d && f < g)
  }

  /** math.MaxFloat64. */
  const MAX_FRAC: real := 9007199254740991.0 / 9007199254740992.0
  const MAX: Mag := Mag(MAX_FRAC, 1024)

  /** A magnitude a finite float64 other than zero can have. */
  predicate Finite(m: Mag) { m.Mag? && 0.5 <= m.frac <= MAX_FRAC && m.exp <= 1024 }

  function Pow2(n: nat): (p: nat)
    ensures p > 0
  {
    if n == 0 then 1 else 2 * Pow2(n - 1)
  }

  type Table = seq<seq<real>>

  ghost predicate Row(b: seq<real>, n: nat) {
    && |b| == Pow2(n) && b[0] == 0.5
    && (forall i :: 0 <= i < |b| ==> 0.5 <= b[i] < MAX_FRAC)
    && (forall i, j :: 0 <= i < j < |b| ==> b[i] < b[j])
  }

  /** nativeHistogramBounds. */
  ghost predicate Ok(t: Table) {
    && |t| == 9
    && (forall s :: 0 <= s < 9 ==> Row(t[s], s))
    && (forall s, i {:trigger t[s][i]} :: 0 <= s < 8 && 0 <= i < |t[s]| && 2 * i < |t[s + 1]| ==> t[s][i] == t[s + 1][2 * i])
  }

  /** sort.SearchFloat64s: the first index whose bound is not below f. */
  function Search(b: seq<real>, f: real): (r: nat)
    ensures r <= |b| && (forall k :: 0 <= k < r ==> b[k] < f) && (r < |b| ==> f <= b[r])
  {
    if b == [] || f <= b[0] then 0 else 1 + Search(b[1..], f)
  }

  /** The key observe computes. */
  function Key(t: Table, m: Mag, schema: int): int
    requires |t| == 9 && m.Mag? && -4 <= schema <= 8
  {
    if schema > 0 then Search(t[schema], m.frac) + (m.exp - 1) * |t[schema]|
    else
      var key := if m.frac == 0.5 then m.exp - 1 else m.exp;
      var offset := Pow2(-schema) - 1;
      (key + offset) / Pow2(-schema)
  }

  /** getLe: the upper bound of bucket key. */
  function Le(t: Table, key: int, schema: int): Mag
    requires Ok(t) && -4 <= schema <= 8
  {
    if schema < 0 then
      var exp := key * Pow2(-schema);
      if exp == 1024 then MAX else Mag(0.5, exp + 1)
    else
      assert |t[schema]| == Pow2(schema) by { assert Row(t[schema], schema); }
      var frac := t[schema][key % Pow2(schema)];
      var exp := key / Pow2(schema) + 1;
      if frac == 0.5 && exp == 1025 then MAX else Mag(frac, exp)
  }

  /** doubleBucketWidth's new key for an old one, with Go's division towards zero. */
  function Halve(key: int): int {
    var k := if key > 0 then key + 1 else key;
    if k >= 0 then k / 2 else -((-k) / 2)
  }

  lemma HalveIs(key: int, k: int)
    ensures Halve(key) == k <==> key == 2 * k - 1 || key == 2 * k
  {
  }

  lemma Pow2Values()
    ensures Pow2(0) == 1 && Pow2(1) == 2 && Pow2(2) == 4 && Pow2(3) == 8 && Pow2(4) == 16
    ensures Pow2(5) == 32 && Pow2(6) == 64 && Pow2(7) == 128 && Pow2(8) == 256
  {
    assert Pow2(4) == 2 * Pow2(3);
    assert Pow2(6) == 2 * Pow2(5);
    assert Pow2(8) == 2 * Pow2(7);
  }

  // ---------------------------------------------------------------- a key's bucket holds its value

  /** A position in a table of n bounds repeated for every exponent. */
  lemma Position(i: nat, e: int, n: int)
    requires 0 < n && i < n
    ensures (i + e * n) / n == e && (i + e * n) % n == i
  {
    var x := i + e * n;
    var q, r := x / n, x % n;
    assert x == q * n + r;
    assert (q - e) * n == i - r;
    assert (e - q) * n == -((q - e) * n);
    if q > e { NotBelow(q - e, n); } else if q < e { NotBelow(e - q, n); }
  }

  lemma NotBelow(a: int, n: int)
    requires a >= 1 && n > 0
    ensures a * n >= n
  {
    if a > 1 { assert a * n == (a - 1) * n + n; NotBelow(a - 1, n); }
  }

  lemma LeAt(t: Table, i: nat, exp: int, schema: int)
    requires Ok(t) && 0 <= schema <= 8 && i < |t[schema]|
    ensures Le(t, i + (exp - 1) * |t[schema]|, schema) ==
      if t[schema][i] == 0.5 && exp == 1025 then MAX else Mag(t[schema][i], exp)
  {
    assert Row(t[schema], schema);
    Position(i, exp - 1, |t[schema]|);
  }

  lemma Shift(e: int, n: int)
    ensures n + e * n == (e + 1) * n
  {
  }

  /** The key of bound i at exponent exp, among those of n bounds for each. */
  function Place(i: int, exp: int, n: nat): int { i + (exp - 1) * n }

  /** The places follow each other across exponents. */
  lemma PlaceShifts(exp: int, n: nat)
    ensures Place(n, exp, n) == Place(0, exp + 1, n) && Place(-1, exp, n) == Place(n - 1, exp - 1, n)
  {
    Shift(exp - 1, n);
    Shift(exp - 2, n);
  }

  lemma LeAtPlace(t: Table, i: nat, exp: int, schema: int)
    requires Ok(t) && 0 <= schema <= 8 && i < |t[schema]|
    ensures Le(t, Place(i, exp, |t[schema]|), schema) ==
      if t[schema][i] == 0.5 && exp == 1025 then MAX else Mag(t[schema][i], exp)
  {
    LeAt(t, i, exp, schema);
  }

  lemma FineUpper(t: Table, m: Mag, schema: int)
    requires Ok(t) && Finite(m) && 0 < schema <= 8
    ensures !Less(Le(t, Place(Search(t[schema], m.frac), m.exp, |t[schema]|), schema), m)
  {
    assert Row(t[schema], schema);
    var i, n := Search(t[schema], m.frac), |t[schema]|;
    if i < n {
      LeAtPlace(t, i, m.exp, schema);
    } else {
      PlaceShifts(m.exp, n);
      LeAtPlace(t, 0, m.exp + 1, schema);
    }
  }

  lemma FineLower(t: Table, m: Mag, schema: int)
    requires Ok(t) && Finite(m) && 0 < schema <= 8
    ensures Less(Le(t, Place(Search(t[schema], m.frac) - 1, m.exp, |t[schema]|), schema), m)
  {
    assert Row(t[schema], schema);
    var i, n := Search(t[schema], m.frac), |t[schema]|;
    if i > 0 {
      LeAtPlace(t, i - 1, m.exp, schema);
    } else {
      FineLeast(t, m, schema);
    }
  }

  /** Below the least fraction is the greatest one of the exponent below. */
  lemma FineLeast(t: Table, m: Mag, schema: int)
    requires Ok(t) && Finite(m) && 0 < schema <= 8
    ensures Less(Le(t, Place(-1, m.exp, |t[schema]|), schema), m)
  {
    assert Row(t[schema], schema);
    PlaceShifts(m.exp, |t[schema]|);
    LeAtPlace(t, |t[schema]| - 1, m.exp - 1, schema);
  }

  /** The power of two below which key, or key + 1, buckets end. */
  lemma RoundUp(e: int, n: int)
    requires n > 0
    ensures ((e + (n - 1)) / n - 1) * n < e <= ((e + (n - 1)) / n) * n
  {
    var q := (e + (n - 1)) / n;
    assert e + (n - 1) == q * n + (e + (n - 1)) % n;
    assert (q - 1) * n == q * n - n;
  }

  lemma CoarseLower(t: Table, m: Mag, schema: int)
    requires Ok(t) && Finite(m) && -4 <= schema <= 0
    ensures Less(Le(t, Key(t, m, schema) - 1, schema), m)
  {
    assert Row(t[0], 0);
    RoundUp(if m.frac == 0.5 then m.exp - 1 else m.exp, Pow2(-schema));
  }

  lemma CoarseUpper(t: Table, m: Mag, schema: int)
    requires Ok(t) && Finite(m) && -4 <= schema <= 0
    ensures !Less(Le(t, Key(t, m, schema), schema), m)
  {
    assert Row(t[0], 0);
    RoundUp(if m.frac == 0.5 then m.exp - 1 else m.exp, Pow2(-schema));
  }

  /** Bucket Key(v) has v: above the bound below it, and at most at its own. */
  lemma KeyBounds(t: Table, m: Mag, schema: int)
    requires Ok(t) && Finite(m) && -4 <= schema <= 8
    ensures Less(Le(t, Key(t, m, schema) - 1, schema), m)
    ensures !Less(Le(t, Key(t, m, schema), schema), m)
  {
    if schema > 0 {
      FineUpper(t, m, schema);
      FineLower(t, m, schema);
    } else {
      CoarseLower(t, m, schema);
      CoarseUpper(t, m, schema);
    }
  }

  lemma DivGrows(j: int, k: int, n: int)
    requires 0 < n && j <= k
    ensures j / n < k / n || (j / n == k / n && j % n <= k % n)
  {
    assert j == (j / n) * n + j % n && k == (k / n) * n + k % n;
    assert (j / n - k / n) * n == (j / n) * n - (k / n) * n;
    if j / n > k / n { NotBelow(j / n - k / n, n); }
  }

  /** Bounds do not decrease with the key. */
  lemma LeGrows(t: Table, j: int, k: int, schema: int)
    requires Ok(t) && -4 <= schema <= 8 && j <= k
    ensures !Less(Le(t, k, schema), Le(t, j, schema))
  {
    if schema < 0 {
      Pow2Values();
    } else {
      assert Row(t[schema], schema);
      DivGrows(j, k, Pow2(schema));
      assert t[schema][j % Pow2(schema)] < MAX_FRAC;
    }
  }

  // ---------------------------------------------------------------- halving a key

  lemma SearchIs(b: seq<real>, f: real, r: nat)
    requires r <= |b| && (forall k :: 0 <= k < r ==> b[k] < f) && (r < |b| ==> f <= b[r])
    ensures Search(b, f) == r
  {
    if r > 0 { SearchIs(b[1..], f, r - 1); }
  }

  /** With every second bound gone, the search ends at half the index, rounded up. */
  lemma SearchHalves(t: Table, schema: int, f: real)
    requires Ok(t) && 1 <= schema <= 8
    ensures Search(t[schema - 1], f) == (Search(t[schema], f) + 1) / 2
  {
    var fine, coarse := t[schema], t[schema - 1];
    assert Row(fine, schema) && Row(coarse, schema - 1) && |fine| == 2 * |coarse|;
    var i := Search(fine, f);
    var r := (i + 1) / 2;
    forall k | 0 <= k < r ensures coarse[k] < f { assert coarse[k] == fine[2 * k]; }
    if r < |coarse| { assert coarse[r] == fine[2 * r] && (2 * r == i || fine[i] < fine[2 * r]); }
    SearchIs(coarse, f, r);
  }

  lemma HalveSum(i: nat, base: int)
    ensures Halve(i + 2 * base) == (i + 1) / 2 + base
  {
  }

  lemma Double(e: int, n: int, d: int)
    requires d == 2 * n
    ensures e * d == 2 * (e * n)
  {
  }

  lemma FineKeyHalves(t: Table, m: Mag, schema: int)
    requires Ok(t) && Finite(m) && 2 <= schema <= 8
    ensures Halve(Key(t, m, schema)) == Key(t, m, schema - 1)
  {
    assert Row(t[schema], schema) && Row(t[schema - 1], schema - 1);
    SearchHalves(t, schema, m.frac);
    Double(m.exp - 1, |t[schema - 1]|, |t[schema]|);
    HalveSum(Search(t[schema], m.frac), (m.exp - 1) * |t[schema - 1]|);
  }

  lemma LessFactor(a: int, b: int, n: int)
    requires n > 0 && a * n < b * n
    ensures a < b
  {
    if a >= b { MulMono(b, a, n); }
  }

  /** Rounding up to twice as wide buckets is halving. */
  lemma CoarseHalves(e: int, n: int)
    requires n > 0
    ensures Halve((e + (n - 1)) / n) == (e + (2 * n - 1)) / (2 * n)
  {
    var q, r := (e + (n - 1)) / n, (e + (2 * n - 1)) / (2 * n);
    RoundUp(e, n);
    RoundUp(e, 2 * n);
    assert r * (2 * n) == (2 * r) * n && (r - 1) * (2 * n) == (2 * r - 2) * n;
    LessFactor(q - 1, 2 * r, n);
    LessFactor(2 * r - 2, q, n);
    HalveIs(q, r);
  }

  /** Halving.  Halving the key observe computes for a value gives the key it
      computes for it at the next lower schema. */
  lemma KeyHalves(t: Table, m: Mag, schema: int)
    requires Ok(t) && Finite(m) && -4 < schema <= 8
    ensures Halve(Key(t, m, schema)) == Key(t, m, schema - 1)
  {
    if schema > 1 {
      FineKeyHalves(t, m, schema);
    } else if schema == 1 {
      Pow2Values();
      assert Row(t[1], 1) && Row(t[0], 0);
      SearchHalves(t, 1, m.frac);
      HalveSum(Search(t[1], m.frac), m.exp - 1);
    } else {
      CoarseHalves(if m.frac == 0.5 then m.exp - 1 else m.exp, Pow2(-schema));
    }
  }

  /** And so it does for the bucket of infinite observations, one above the last. */
  lemma InfiniteKeyHalves(t: Table, schema: int)
    requires Ok(t) && -4 < schema <= 8
    ensures Halve(Key(t, MAX, schema) + 1) == Key(t, MAX, schema - 1) + 1
  {
    MaxKey(t, schema);
    MaxKey(t, schema - 1);
    Pow2Values();
  }

  lemma MaxKey(t: Table, schema: int)
    requires Ok(t) && -4 <= schema <= 8
    ensures Key(t, MAX, schema) == if schema >= 0 then 1024 * Pow2(schema) else 1024 / Pow2(-schema)
  {
    Pow2Values();
    if schema > 0 {
      assert Row(t[schema], schema);
      SearchIs(t[schema], MAX_FRAC, |t[schema]|);
      assert Pow2(schema) + 1023 * Pow2(schema) == 1024 * Pow2(schema);
    }
  }

  /** No key comes near the sentinel of findSmallestKey, or leaves the range of an
      int32: the smallest float64 has exp -1073. */
  lemma KeyIsSmall(t: Table, m: Mag, schema: int)
    requires Ok(t) && Finite(m) && -1073 <= m.exp && -4 <= schema <= 8
    ensures -1074 * 256 <= Key(t, m, schema) <= 1024 * 256
  {
    Pow2Values();
    if schema > 0 {
      assert Row(t[schema], schema);
      FineKeyIsSmall(Search(t[schema], m.frac), m.exp - 1, |t[schema]|);
    } else {
      CoarseKeyIsSmall(if m.frac == 0.5 then m.exp - 1 else m.exp, Pow2(-schema));
    }
  }

  lemma FineKeyIsSmall(i: nat, e: int, n: nat)
    requires i <= n <= 256 && -1074 <= e <= 1023
    ensures -1074 * 256 <= i + e * n <= 1024 * 256
  {
    MulMono(-1074, e, n);
    MulMono(e, 1023, n);
  }

  lemma CoarseKeyIsSmall(exp: int, n: nat)
    requires -1074 <= exp <= 1024 && n > 0
    ensures -1074 <= (exp + (n - 1)) / n <= 1024
  {
    var q := (exp + (n - 1)) / n;
    if q > 1024 { MulMono(1025, q, n); }
    if q < -1074 { MulMono(q, -1075, n); }
  }

  lemma MulMono(a: int, b: int, n: nat)
    requires a <= b
    ensures a * n <= b * n
  {
  }
}
