/** Exact arithmetic shared by the cache models: sums, inner products, extrema and rounding.
    Floating point is read as real arithmetic throughout. */
module Nums {

  type Vec = seq<real>

  function Sum(s: Vec): real {
    if s == [] then 0.0 else s[0] + Sum(s[1..])
  }

  function Dot(a: Vec, b: Vec): real
    requires |a| == |b|
  {
    if a == [] then 0.0 else a[0] * b[0] + Dot(a[1..], b[1..])
  }

  function Scaled(s: Vec, c: real): (r: Vec)
    ensures |r| == |s| && forall i :: 0 <= i < |s| ==> r[i] == s[i] * c
  {
    seq(|s|, i requires 0 <= i < |s| => s[i] * c)
  }

  function Least(a: nat, b: nat): nat {
    if a < b then a else b
  }

  function Max2(a: real, b: real): real {
    if a < b then b else a
  }

  function Max(s: Vec): (m: real)
    requires s != []
    ensures m in s && forall i :: 0 <= i < |s| ==> s[i] <= m
  {
    if |s| == 1 then s[0] else Max2(s[0], Max(s[1..]))
  }

  function Min(s: Vec): (m: real)
    requires s != []
    ensures m in s && forall i :: 0 <= i < |s| ==> m <= s[i]
  {
    if |s| == 1 then s[0]
    else
      var m := Min(s[1..]);
      if m < s[0] then m else s[0]
  }

  /** Round to the nearest integer, halves to even, as `torch.round` and Python's `round` do. */
  function Round(x: real): (n: int)
    ensures -0.5 <= x - n as real <= 0.5
  {
    var f := x.Floor;
    var d := x - f as real;
    if d < 0.5 || (d == 0.5 && f % 2 == 0) then f else f + 1
  }

  lemma {:induction false} SumAppend(a: Vec, b: Vec)
    ensures Sum(a + b) == Sum(a) + Sum(b)
  {
    if a == [] {
      assert a + b == b;
    } else {
      SumAppend(a[1..], b);
      assert (a + b)[1..] == a[1..] + b;
    }
  }

  lemma {:induction false} DotAppend(a: Vec, b: Vec, x: Vec, y: Vec)
    requires |a| == |x| && |b| == |y|
    ensures Dot(a + b, x + y) == Dot(a, x) + Dot(b, y)
  {
    if a == [] {
      assert a + b == b && x + y == y;
    } else {
      DotAppend(a[1..], b, x[1..], y);
      assert (a + b)[1..] == a[1..] + b && (x + y)[1..] == x[1..] + y;
    }
  }

  lemma {:induction false} SumScaled(s: Vec, c: real)
    ensures Sum(Scaled(s, c)) == Sum(s) * c
  {
    if s != [] {
      SumScaled(s[1..], c);
      var t := Scaled(s, c)[1..];
      forall i | 0 <= i < |t| ensures t[i] == Scaled(s[1..], c)[i] {
        assert s[1..][i] == s[i + 1];
      }
      assert t == Scaled(s[1..], c);
    }
  }

  lemma {:induction false} SumPositive(s: Vec)
    requires forall i :: 0 <= i < |s| ==> s[i] >= 0.0
    ensures Sum(s) >= 0.0
    ensures (exists i :: 0 <= i < |s| && s[i] > 0.0) ==> Sum(s) > 0.0
  {
    if s != [] {
      SumPositive(s[1..]);
      if i :| 0 <= i < |s| && s[i] > 0.0 {
        if i > 0 {
          assert s[1..][i - 1] == s[i];
        }
      }
    }
  }

  lemma {:induction false} ZeroWeights(a: Vec, x: Vec)
    requires |a| == |x| && forall i :: 0 <= i < |a| ==> a[i] == 0.0
    ensures Sum(a) == 0.0 && Dot(a, x) == 0.0
  {
    if a != [] {
      ZeroWeights(a[1..], x[1..]);
    }
  }

  lemma {:induction false} RoundWithin(x: real, n: nat)
    requires 0.0 <= x <= n as real
    ensures 0 <= Round(x) <= n
  {
    var r := Round(x);
    assert r as real >= -0.5 && r as real <= n as real + 0.5;
  }

  // ---- multiples ----

  lemma MulLower(k: int, g: nat)
    ensures k >= 1 ==> k * g >= g
    ensures k <= -1 ==> k * g <= -(g as int)
  {
    if k >= 1 {
      assert (k - 1) * g >= 0;
    } else if k <= -1 {
      assert (-k - 1) * g >= 0;
    }
  }

  lemma MulMonoInt(a: int, b: int, g: nat)
    requires a <= b
    ensures a * g <= b * g
  {
    assert (b - a) * g >= 0;
  }

  lemma EuclidUnique(a: int, q: int, r: int, g: nat)
    requires 0 <= r < g && a * g == q * g + r
    ensures a == q && r == 0
  {
    assert (a - q) * g == r;
    MulLower(a - q, g);
  }

  lemma ModMultiple(a: int, g: nat)
    requires g > 0
    ensures (a * g) % g == 0 && (a * g) / g == a
  {
    var x := a * g;
    assert x == x / g * g + x % g;
    EuclidUnique(a, x / g, x % g, g);
  }

  /** A positive multiple of `g` is at least `g`, and taking one `g` away leaves a multiple. */
  lemma DivLower(n: nat, g: nat)
    requires g > 0 && n > 0 && n % g == 0
    ensures n >= g && (n - g) % g == 0
  {
    var k := n / g;
    assert n == k * g;
    MulLower(k, g);
    assert n - g == (k - 1) * g;
    ModMultiple(k - 1, g);
  }

  lemma ModSum(a: nat, b: nat, g: nat)
    requires g > 0 && a % g == 0 && b % g == 0
    ensures (a + b) % g == 0
  {
    var x, y := a / g, b / g;
    assert a == x * g && b == y * g;
    assert a + b == (x + y) * g;
    ModMultiple(x + y, g);
  }

  /** Two multiples of `g` closer than `g` are equal. */
  lemma MultiplesApart(a: nat, b: nat, g: nat)
    requires g > 0 && a % g == 0 && b % g == 0 && a < b + g && b < a + g
    ensures a == b
  {
    var x, y := a / g, b / g;
    assert a == x * g && b == y * g;
    assert (x - y) * g == a - b;
    MulLower(x - y, g);
  }

  // ---- rows of vectors ----

  function Column(rows: seq<Vec>, d: nat): (c: Vec)
    requires forall t :: 0 <= t < |rows| ==> d < |rows[t]|
    ensures |c| == |rows| && forall t :: 0 <= t < |rows| ==> c[t] == rows[t][d]
  {
    seq(|rows|, t requires 0 <= t < |rows| => rows[t][d])
  }

  ghost predicate Shaped(rows: seq<Vec>, dim: nat) {
    forall t :: 0 <= t < |rows| ==> |rows[t]| == dim
  }
}
