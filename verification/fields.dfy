/** Temperature fields and the small amount of array algebra the solvers use:
    constant fills (`np.full`), rectangular shape, column extraction, bands,
    and the maximum / minimum reductions (`ndarray.max()` / `ndarray.min()`).
 */
module Fields {

  lemma ProductPositive(x: real, y: real)
    requires x > 0.0 && y > 0.0
    ensures x * y > 0.0
  {
  }

  lemma ProductNonNegative(x: real, y: real)
    requires x >= 0.0 && y >= 0.0
    ensures x * y >= 0.0
  {
  }

  lemma ReciprocalPositive(x: real)
    requires x > 0.0
    ensures 1.0 / x > 0.0
  {
  }

  lemma SquarePositive(x: real)
    requires x != 0.0
    ensures x * x > 0.0
  {
    if x > 0.0 {
      ProductPositive(x, x);
    } else {
      ProductPositive(-x, -x);
      assert (-x) * (-x) == x * x;
    }
  }

  /** Taking reciprocals of positive numbers reverses their order. */
  lemma ReciprocalLe(x: real, y: real)
    requires 0.0 < x <= y
    ensures 1.0 / y <= 1.0 / x
  {
  }

  /** Squaring preserves the order of positive numbers. */
  lemma SquareLe(a: real, b: real)
    requires 0.0 < a <= b
    ensures 0.0 < a * a <= b * b
  {
    ProductPositive(a, a);
    ProductLe(a, a, b);
    ProductLe(b, a, b);
    assert a * b == b * a;
  }

  /** Multiplying by a non-negative factor preserves order. */
  lemma ScaleLe(c: real, y: real, z: real)
    requires c >= 0.0 && y <= z
    ensures c * y <= c * z
  {
    ProductNonNegative(c, z - y);
    assert c * (z - y) == c * z - c * y;
  }

  /** 0 <= num <= den with den > 0 gives a fraction in [0, 1]. */
  lemma FractionInUnit(num: real, den: real)
    requires den > 0.0 && 0.0 <= num <= den
    ensures 0.0 <= num / den <= 1.0
  {
  }

  /** Multiplying by a positive factor preserves order. */
  lemma ProductLe(x: real, y: real, z: real)
    requires x > 0.0 && y <= z
    ensures x * y <= x * z
  {
  }

  /** A convex combination of five values inside [lo, hi] stays inside it. */
  lemma Convex5(a0: real, a1: real, a2: real, a3: real, a4: real,
                v0: real, v1: real, v2: real, v3: real, v4: real, lo: real, hi: real)
    requires a0 >= 0.0 && a1 >= 0.0 && a2 >= 0.0 && a3 >= 0.0 && a4 >= 0.0
    requires a0 + a1 + a2 + a3 + a4 == 1.0
    requires lo <= v0 <= hi && lo <= v1 <= hi && lo <= v2 <= hi && lo <= v3 <= hi && lo <= v4 <= hi
    ensures lo <= a0 * v0 + a1 * v1 + a2 * v2 + a3 * v3 + a4 * v4 <= hi
  {
    ProductNonNegative(a0, hi - v0);
    ProductNonNegative(a1, hi - v1);
    ProductNonNegative(a2, hi - v2);
    ProductNonNegative(a3, hi - v3);
    ProductNonNegative(a4, hi - v4);
    ProductNonNegative(a0, v0 - lo);
    ProductNonNegative(a1, v1 - lo);
    ProductNonNegative(a2, v2 - lo);
    ProductNonNegative(a3, v3 - lo);
    ProductNonNegative(a4, v4 - lo);
  }

  lemma Singleton(s: seq<real>, x: real)
    requires |s| == 1 && s[0] == x
    ensures s == [x]
  {
  }

  /** A 2-D temperature field, row-major: `f[row][col]`. */
  type Field = seq<seq<real>>

  function Abs(x: real): real {
    if x < 0.0 then -x else x
  }

  /** The field has exactly `rows` rows of `cols` entries each (a numpy array of that shape). */
  predicate IsGrid(f: Field, rows: nat, cols: nat) {
    |f| == rows && forall i :: 0 <= i < |f| ==> |f[i]| == cols
  }

  /** `np.full(n, v)`. */
  function Fill(n: nat, v: real): (s: seq<real>)
    ensures |s| == n
    ensures forall i :: 0 <= i < n ==> s[i] == v
  {
    seq(n, _ => v)
  }

  /** `np.full((rows, cols), v)`. */
  function Fill2(rows: nat, cols: nat, v: real): (f: Field)
    ensures IsGrid(f, rows, cols)
    ensures forall i, j :: 0 <= i < rows && 0 <= j < cols ==> f[i][j] == v
  {
    seq(rows, _ => Fill(cols, v))
  }

  /** Every entry of `s` equals `v`. */
  predicate Uniform(s: seq<real>, v: real) {
    forall i :: 0 <= i < |s| ==> s[i] == v
  }

  /** Every entry of `f` equals `v`. */
  predicate Uniform2(f: Field, v: real) {
    forall i :: 0 <= i < |f| ==> Uniform(f[i], v)
  }

  /** A uniform array is the constant fill of its length. */
  lemma UniformIsFill(s: seq<real>, v: real)
    requires Uniform(s, v)
    ensures s == Fill(|s|, v)
  {
  }

  /** A uniform field of a given shape is the constant fill of that shape. */
  lemma UniformIsFill2(f: Field, rows: nat, cols: nat, v: real)
    requires IsGrid(f, rows, cols) && Uniform2(f, v)
    ensures f == Fill2(rows, cols, v)
  {
    forall i | 0 <= i < rows ensures f[i] == Fill(cols, v) {
      UniformIsFill(f[i], v);
    }
  }

  /** `f[:, j]`. */
  function Column(f: Field, j: nat): (c: seq<real>)
    requires forall i :: 0 <= i < |f| ==> j < |f[i]|
    ensures |c| == |f|
    ensures forall i :: 0 <= i < |f| ==> c[i] == f[i][j]
  {
    seq(|f|, i requires 0 <= i < |f| => f[i][j])
  }

  /** Every entry lies in the closed band [lo, hi]. */
  predicate Within(s: seq<real>, lo: real, hi: real) {
    forall i :: 0 <= i < |s| ==> lo <= s[i] <= hi
  }

  /** Every entry lies in the open band (lo, hi). */
  predicate StrictlyWithin(s: seq<real>, lo: real, hi: real) {
    forall i :: 0 <= i < |s| ==> lo < s[i] < hi
  }

  predicate Within2(f: Field, lo: real, hi: real) {
    forall i :: 0 <= i < |f| ==> Within(f[i], lo, hi)
  }

  predicate StrictlyWithin2(f: Field, lo: real, hi: real) {
    forall i :: 0 <= i < |f| ==> StrictlyWithin(f[i], lo, hi)
  }

  /** Strictly increasing coordinates, as every `np.linspace` mesh of positive extent is. */
  predicate Increasing(s: seq<real>) {
    forall i, j :: 0 <= i < j < |s| ==> s[i] < s[j]
  }

  /** `ndarray.max()` of a non-empty array: an upper bound that is attained. */
  function Max(s: seq<real>): (r: real)
    requires |s| > 0
    ensures forall i :: 0 <= i < |s| ==> s[i] <= r
    ensures exists i :: 0 <= i < |s| && s[i] == r
  {
    if |s| == 1 then s[0]
    else
      var m := Max(s[1..]);
      assert forall i :: 1 <= i < |s| ==> s[i] == s[1..][i - 1];
      if s[0] >= m then s[0] else m
  }

  /** `ndarray.min()` of a non-empty array: a lower bound that is attained. */
  function Min(s: seq<real>): (r: real)
    requires |s| > 0
    ensures forall i :: 0 <= i < |s| ==> r <= s[i]
    ensures exists i :: 0 <= i < |s| && s[i] == r
  {
    if |s| == 1 then s[0]
    else
      var m := Min(s[1..]);
      assert forall i :: 1 <= i < |s| ==> s[i] == s[1..][i - 1];
      if s[0] <= m then s[0] else m
  }

  /** Non-empty field whose rows are all non-empty. */
  predicate NonEmpty2(f: Field) {
    |f| > 0 && forall i :: 0 <= i < |f| ==> |f[i]| > 0
  }

  /** `ndarray.max()` of a 2-D array. */
  function Max2(f: Field): (r: real)
    requires NonEmpty2(f)
    ensures forall i, j :: 0 <= i < |f| && 0 <= j < |f[i]| ==> f[i][j] <= r
    ensures exists i, j :: 0 <= i < |f| && 0 <= j < |f[i]| && f[i][j] == r
  {
    var rowMax := seq(|f|, i requires 0 <= i < |f| => Max(f[i]));
    var r := Max(rowMax);
    assert forall i :: 0 <= i < |f| ==> rowMax[i] == Max(f[i]);
    var i :| 0 <= i < |f| && rowMax[i] == r;
    assert exists j :: 0 <= j < |f[i]| && f[i][j] == r;
    r
  }

  /** `ndarray.min()` of a 2-D array. */
  function Min2(f: Field): (r: real)
    requires NonEmpty2(f)
    ensures forall i, j :: 0 <= i < |f| && 0 <= j < |f[i]| ==> r <= f[i][j]
    ensures exists i, j :: 0 <= i < |f| && 0 <= j < |f[i]| && f[i][j] == r
  {
    var rowMin := seq(|f|, i requires 0 <= i < |f| => Min(f[i]));
    var r := Min(rowMin);
    assert forall i :: 0 <= i < |f| ==> rowMin[i] == Min(f[i]);
    var i :| 0 <= i < |f| && rowMin[i] == r;
    assert exists j :: 0 <= j < |f[i]| && f[i][j] == r;
    r
  }

  /** On an increasing array the minimum is the first entry and the maximum the last. */
  lemma IncreasingExtremes(s: seq<real>)
    requires |s| > 0 && Increasing(s)
    ensures Min(s) == s[0]
    ensures Max(s) == s[|s| - 1]
  {
    var i :| 0 <= i < |s| && s[i] == Min(s);
    if i > 0 {
      assert s[0] < s[i];
    }
    var k :| 0 <= k < |s| && s[k] == Max(s);
    if k < |s| - 1 {
      assert s[k] < s[|s| - 1];
    }
  }

  /** An increasing array lies between its first and its last entry. */
  lemma IncreasingWithin(s: seq<real>)
    requires |s| > 0 && Increasing(s)
    ensures Within(s, s[0], s[|s| - 1])
  {
    forall i | 0 <= i < |s| ensures s[0] <= s[i] <= s[|s| - 1] {
      if 0 < i { assert s[0] < s[i]; }
      if i < |s| - 1 { assert s[i] < s[|s| - 1]; }
    }
  }

  /** Two arrays and a value, all strictly inside (lo0, hi0), share a closed
      band [lo, hi] that is itself strictly inside it. */
  lemma InnerBand(s: seq<real>, u: seq<real>, v: real, lo0: real, hi0: real) returns (lo: real, hi: real)
    requires StrictlyWithin(s, lo0, hi0) && StrictlyWithin(u, lo0, hi0) && lo0 < v < hi0
    ensures lo0 < lo <= v <= hi < hi0 && Within(s, lo, hi) && Within(u, lo, hi)
  {
    lo, hi := v, v;
    if |s| > 0 {
      InBandIff(s, lo0, hi0);
      lo, hi := if Min(s) < lo then Min(s) else lo, if Max(s) > hi then Max(s) else hi;
    }
    if |u| > 0 {
      InBandIff(u, lo0, hi0);
      lo, hi := if Min(u) < lo then Min(u) else lo, if Max(u) > hi then Max(u) else hi;
    }
  }

  /** The same for a field, an array and a value. */
  lemma InnerBand2(f: Field, u: seq<real>, v: real, lo0: real, hi0: real) returns (lo: real, hi: real)
    requires NonEmpty2(f) && StrictlyWithin2(f, lo0, hi0) && StrictlyWithin(u, lo0, hi0) && lo0 < v < hi0
    ensures lo0 < lo <= v <= hi < hi0 && Within2(f, lo, hi) && Within(u, lo, hi)
  {
    lo, hi := InnerBand([], u, v, lo0, hi0);
    InBand2Iff(f, lo0, hi0);
    if Min2(f) < lo { lo := Min2(f); }
    if Max2(f) > hi { hi := Max2(f); }
  }

  /** A band holding every entry can be widened. */
  lemma Widen(s: seq<real>, lo: real, hi: real, lo0: real, hi0: real)
    requires Within(s, lo, hi) && lo0 <= lo && hi <= hi0
    ensures Within(s, lo0, hi0)
  {
  }

  /** A closed band strictly inside (lo0, hi0) holds values strictly inside it. */
  lemma Tighten(s: seq<real>, lo: real, hi: real, lo0: real, hi0: real)
    requires Within(s, lo, hi) && lo0 < lo && hi < hi0
    ensures StrictlyWithin(s, lo0, hi0)
  {
  }

  lemma Tighten2(f: Field, lo: real, hi: real, lo0: real, hi0: real)
    requires Within2(f, lo, hi) && lo0 < lo && hi < hi0
    ensures StrictlyWithin2(f, lo0, hi0)
  {
    forall i | 0 <= i < |f| ensures StrictlyWithin(f[i], lo0, hi0) {
      Tighten(f[i], lo, hi, lo0, hi0);
    }
  }

  /** The range check the solvers run after every update: both the minimum and
      the maximum lie strictly inside (lo, hi). */
  predicate InBand(s: seq<real>, lo: real, hi: real)
    requires |s| > 0
  {
    lo < Min(s) < hi && lo < Max(s) < hi
  }

  /** The same range check on a 2-D field. */
  predicate InBand2(f: Field, lo: real, hi: real)
    requires NonEmpty2(f)
  {
    lo < Min2(f) < hi && lo < Max2(f) < hi
  }

  /** Checking the extremes is checking every entry. */
  lemma InBandIff(s: seq<real>, lo: real, hi: real)
    requires |s| > 0
    ensures InBand(s, lo, hi) <==> StrictlyWithin(s, lo, hi)
  {
    if StrictlyWithin(s, lo, hi) {
      var i :| 0 <= i < |s| && s[i] == Min(s);
      var k :| 0 <= k < |s| && s[k] == Max(s);
    }
  }

  lemma InBand2Iff(f: Field, lo: real, hi: real)
    requires NonEmpty2(f)
    ensures InBand2(f, lo, hi) <==> StrictlyWithin2(f, lo, hi)
  {
    if StrictlyWithin2(f, lo, hi) {
      var i, j :| 0 <= i < |f| && 0 <= j < |f[i]| && f[i][j] == Min2(f);
      var k, l :| 0 <= k < |f| && 0 <= l < |f[k]| && f[k][l] == Max2(f);
    }
    if InBand2(f, lo, hi) {
      forall i, j | 0 <= i < |f| && 0 <= j < |f[i]|
        ensures lo < f[i][j] < hi
      {
      }
    }
  }
}
