/** Attention over history tiles and the sixteen-bit window, merged by log-sum-exp, against one
    causal softmax over all cached tokens. `exp` and `log` are parameters; their laws are
    preconditions, so nothing is assumed globally. */
module TiledAttention {
  import opened Nums
  import opened Seqs

  // ---- the laws of exp and log ----

  ghost predicate ExpAdds(exp: real -> real, x: real, y: real) {
    exp(x + y) == exp(x) * exp(y)
  }

  ghost predicate ExpLog(exp: real -> real, log: real -> real) {
    && (forall x :: exp(x) > 0.0)
    && (forall x, y :: ExpAdds(exp, x, y))
    && (forall z :: z > 0.0 ==> exp(log(z)) == z)
  }

  // ---- softmax over a list of tokens ----

  /** Unnormalised softmax weight of every key for the query `q`. */
  function Weights(exp: real -> real, q: Vec, ks: seq<Vec>, scale: real): (w: Vec)
    requires Shaped(ks, |q|)
    ensures |w| == |ks| && forall i :: 0 <= i < |ks| ==> w[i] == WeightOf(exp, q, ks[i], scale)
  {
    seq(|ks|, i requires 0 <= i < |ks| => WeightOf(exp, q, ks[i], scale))
  }

  function WeightOf(exp: real -> real, q: Vec, k: Vec, scale: real): real
    requires |k| == |q|
  {
    exp(Logit(q, k, scale))
  }

  function Logit(q: Vec, k: Vec, scale: real): real
    requires |k| == |q|
  {
    Dot(q, k) * scale
  }

  function Mean(w: Vec, vs: seq<Vec>, dv: nat): (o: Vec)
    requires |w| == |vs| && Shaped(vs, dv) && Sum(w) > 0.0
    ensures |o| == dv
    ensures forall d :: 0 <= d < dv ==> o[d] == Dot(w, Column(vs, d)) / Sum(w)
  {
    seq(dv, d requires 0 <= d < dv => Dot(w, Column(vs, d)) / Sum(w))
  }

  lemma WeightsPositive(exp: real -> real, q: Vec, ks: seq<Vec>, scale: real)
    requires Shaped(ks, |q|) && forall x :: exp(x) > 0.0
    ensures ks != [] ==> Sum(Weights(exp, q, ks, scale)) > 0.0
  {
    var w := Weights(exp, q, ks, scale);
    SumPositive(w);
    if ks != [] { assert w[0] > 0.0; }
  }

  ghost predicate ExpPositive(exp: real -> real) {
    forall x :: exp(x) > 0.0
  }

  /** One softmax over all the given tokens: the reference the tiled read must equal. */
  function Softmax(exp: real -> real, q: Vec, ks: seq<Vec>, vs: seq<Vec>, scale: real, dv: nat): (o: Vec)
    requires ExpPositive(exp) && ks != [] && |ks| == |vs| && Shaped(ks, |q|) && Shaped(vs, dv)
    ensures |o| == dv
  {
    WeightsPositive(exp, q, ks, scale);
    Mean(Weights(exp, q, ks, scale), vs, dv)
  }

  // ---- tiles ----

  /** A stretch of consecutive history tokens read in one kernel call. */
  datatype Tile = Tile(ks: seq<Vec>, vs: seq<Vec>)

  ghost predicate TileOk(t: Tile, dk: nat, dv: nat) {
    t.ks != [] && |t.ks| == |t.vs| && Shaped(t.ks, dk) && Shaped(t.vs, dv)
  }

  ghost predicate TilesOk(ts: seq<Tile>, dk: nat, dv: nat) {
    forall j :: 0 <= j < |ts| ==> TileOk(ts[j], dk, dv)
  }

  function TileKeys(ts: seq<Tile>): (ks: seq<Vec>) {
    if ts == [] then [] else ts[0].ks + TileKeys(ts[1..])
  }

  function TileValues(ts: seq<Tile>): (vs: seq<Vec>) {
    if ts == [] then [] else ts[0].vs + TileValues(ts[1..])
  }

  lemma {:induction false} TilesSnoc(ts: seq<Tile>, t: Tile)
    ensures TileKeys(ts + [t]) == TileKeys(ts) + t.ks
    ensures TileValues(ts + [t]) == TileValues(ts) + t.vs
  {
    if ts == [] {
      assert ([] + [t])[1..] == [];
    } else {
      TilesSnoc(ts[1..], t);
      assert (ts + [t])[1..] == ts[1..] + [t] && (ts + [t])[0] == ts[0];
      Assoc(ts[0].ks, TileKeys(ts[1..]), t.ks);
      Assoc(ts[0].vs, TileValues(ts[1..]), t.vs);
    }
  }

  /** What the fused kernel returns for a tile: its softmax output and its log-sum-exp. */
  function TileLse(exp: real -> real, log: real -> real, q: Vec, t: Tile, scale: real): real
    requires Shaped(t.ks, |q|)
  {
    log(Sum(Weights(exp, q, t.ks, scale)))
  }

  // ---- merging ----

  /** Weight of every part in the merge, shifted by the largest log-sum-exp. */
  function MergeWeights(exp: real -> real, ls: Vec): (w: Vec)
    requires ls != []
    ensures |w| == |ls|
  {
    Shifted(exp, ls, Max(ls))
  }

  function Shifted(exp: real -> real, ls: Vec, mx: real): (w: Vec)
    ensures |w| == |ls| && forall j :: 0 <= j < |ls| ==> w[j] == exp(ls[j] - mx)
  {
    seq(|ls|, j requires 0 <= j < |ls| => exp(ls[j] - mx))
  }

  /** The shift is what keeps the merge in range: no weight exceeds one, and one weight is one. */
  lemma MergeWeightsBounded(exp: real -> real, log: real -> real, ls: Vec)
    requires ls != [] && ExpLog(exp, log) && forall x, y :: x <= y ==> exp(x) <= exp(y)
    ensures forall j :: 0 <= j < |ls| ==> 0.0 < MergeWeights(exp, ls)[j] <= 1.0
    ensures exists j :: 0 <= j < |ls| && MergeWeights(exp, ls)[j] == 1.0
  {
    ExpZero(exp, log);
    var mx, w := Max(ls), MergeWeights(exp, ls);
    forall j | 0 <= j < |ls| ensures 0.0 < w[j] <= 1.0 {
      assert ls[j] - mx <= 0.0;
      assert exp(ls[j] - mx) <= exp(0.0);
    }
    var j :| 0 <= j < |ls| && ls[j] == mx;
    assert w[j] == exp(0.0);
  }

  lemma ExpZero(exp: real -> real, log: real -> real)
    requires ExpLog(exp, log)
    ensures exp(0.0) == 1.0
  {
    assert ExpAdds(exp, 0.0, 0.0);
    OwnSquare(exp, 0.0);
    CancelOne(exp(0.0));
  }

  lemma OwnSquare(exp: real -> real, z: real)
    requires ExpAdds(exp, z, z) && z + z == z
    ensures exp(z) == exp(z) * exp(z)
  {}

  lemma CancelOne(e: real)
    requires e > 0.0 && e == e * e
    ensures e == 1.0
  {
    assert e * (e - 1.0) == 0.0;
  }

  function Merge(exp: real -> real, os: seq<Vec>, ls: Vec, dv: nat): (o: Vec)
    requires ExpPositive(exp) && ls != [] && |os| == |ls| && Shaped(os, dv)
    ensures |o| == dv
  {
    var w := MergeWeights(exp, ls);
    MergePositive(exp, ls);
    Mean(w, os, dv)
  }

  lemma MergePositive(exp: real -> real, ls: Vec)
    requires ExpPositive(exp) && ls != []
    ensures Sum(MergeWeights(exp, ls)) > 0.0
  {
    var w := MergeWeights(exp, ls);
    assert w[0] > 0.0;
    SumPositive(w);
  }

  lemma ShiftOne(exp: real -> real, log: real -> real, z: real, mx: real)
    requires ExpLog(exp, log) && z > 0.0
    ensures exp(log(z) - mx) == z * exp(-mx)
  {
    assert ExpAdds(exp, log(z), -mx);
    assert log(z) + -mx == log(z) - mx;
  }

  /** Shifting every log-sum-exp by the same amount scales every normaliser alike. */
  lemma ShiftedIsScaled(exp: real -> real, log: real -> real, zs: Vec, ls: Vec, mx: real)
    requires ExpLog(exp, log) && |zs| == |ls|
    requires forall j :: 0 <= j < |zs| ==> zs[j] > 0.0 && ls[j] == log(zs[j])
    ensures Shifted(exp, ls, mx) == Scaled(zs, exp(-mx))
  {
    forall j | 0 <= j < |zs| ensures exp(ls[j] - mx) == zs[j] * exp(-mx) {
      ShiftOne(exp, log, zs[j], mx);
    }
  }

  /** If every part `j` holds output `ns[j] / zs[j]` and log-sum-exp `log(zs[j])`, the shifted
      merge is the quotient of the totals. */
  lemma MergeTotals(exp: real -> real, log: real -> real, ns: Vec, zs: Vec, ls: Vec, x: Vec)
    requires ExpLog(exp, log) && ls != [] && |ns| == |zs| == |ls| == |x|
    requires forall j :: 0 <= j < |zs| ==> zs[j] > 0.0 && ls[j] == log(zs[j])
    requires Shares(x, ns, zs)
    ensures Sum(zs) > 0.0 && Sum(MergeWeights(exp, ls)) > 0.0
    ensures Dot(MergeWeights(exp, ls), x) / Sum(MergeWeights(exp, ls)) == Sum(ns) / Sum(zs)
  {
    assert zs[0] > 0.0;
    SumPositive(zs);
    ShiftedIsScaled(exp, log, zs, ls, Max(ls));
    ScaledQuotient(x, ns, zs, exp(-Max(ls)));
  }

  /** `x[j]` is the share `ns[j] / zs[j]` of every part. */
  ghost predicate Shares(x: Vec, ns: Vec, zs: Vec) {
    |x| == |ns| == |zs| && forall j :: 0 <= j < |zs| ==> ShareOf(x[j], ns[j], zs[j])
  }

  ghost predicate ShareOf(x: real, n: real, z: real) {
    x * z == n
  }

  lemma ScaledQuotient(x: Vec, ns: Vec, zs: Vec, c: real)
    requires Shares(x, ns, zs) && c > 0.0 && Sum(zs) > 0.0
    ensures Sum(Scaled(zs, c)) > 0.0
    ensures Dot(Scaled(zs, c), x) / Sum(Scaled(zs, c)) == Sum(ns) / Sum(zs)
  {
    SumScaled(zs, c);
    ScaledDot(x, ns, zs, c);
    Cancel(Dot(Scaled(zs, c), x), Sum(Scaled(zs, c)), Sum(ns), Sum(zs), c);
  }

  lemma Cancel(a: real, b: real, n: real, z: real, c: real)
    requires z > 0.0 && c > 0.0 && a == n * c && b == z * c
    ensures b > 0.0 && a / b == n / z
  {
    var q := n / z;
    assert q * z == n;
    assert q * b == (q * z) * c;
  }

  lemma {:induction false} ScaledDot(x: Vec, ns: Vec, zs: Vec, c: real)
    requires Shares(x, ns, zs)
    ensures Dot(Scaled(zs, c), x) == Sum(ns) * c
  {
    if x != [] {
      assert ShareOf(x[0], ns[0], zs[0]);
      assert Shares(x[1..], ns[1..], zs[1..]);
      ScaledDot(x[1..], ns[1..], zs[1..], c);
      var t := Scaled(zs, c)[1..];
      forall i | 0 <= i < |t| ensures t[i] == Scaled(zs[1..], c)[i] {
        assert zs[1..][i] == zs[i + 1];
      }
      assert t == Scaled(zs[1..], c);
      ShareBack(ns[0], zs[0], x[0], c);
    }
  }

  lemma ShareBack(n: real, z: real, x: real, c: real)
    requires ShareOf(x, n, z)
    ensures (z * c) * x == n * c
  {
    assert (z * c) * x == (x * z) * c;
  }

  // ---- parts of one row ----

  lemma ColumnAppend(a: seq<Vec>, b: seq<Vec>, d: nat, dv: nat)
    requires Shaped(a, dv) && Shaped(b, dv) && d < dv
    ensures Column(a + b, d) == Column(a, d) + Column(b, d)
  {}

  /** Normaliser and numerator of a stretch of tokens add up under concatenation. */
  lemma PartAppend(exp: real -> real, q: Vec, a: seq<Vec>, b: seq<Vec>, x: seq<Vec>, y: seq<Vec>, scale: real, d: nat,
                   dv: nat)
    requires Shaped(a, |q|) && Shaped(b, |q|) && |a| == |x| && |b| == |y|
    requires Shaped(x, dv) && Shaped(y, dv) && d < dv
    ensures Sum(Weights(exp, q, a + b, scale)) == Sum(Weights(exp, q, a, scale)) + Sum(Weights(exp, q, b, scale))
    ensures Dot(Weights(exp, q, a + b, scale), Column(x + y, d))
         == Dot(Weights(exp, q, a, scale), Column(x, d)) + Dot(Weights(exp, q, b, scale), Column(y, d))
  {
    var wa, wb := Weights(exp, q, a, scale), Weights(exp, q, b, scale);
    var w := Weights(exp, q, a + b, scale);
    assert w == wa + wb;
    SumAppend(wa, wb);
    ColumnAppend(x, y, d, dv);
    DotAppend(wa, wb, Column(x, d), Column(y, d));
  }

  function Normaliser(exp: real -> real, q: Vec, t: Tile, scale: real): real
    requires Shaped(t.ks, |q|)
  {
    Sum(Weights(exp, q, t.ks, scale))
  }

  function Numerator(exp: real -> real, q: Vec, t: Tile, scale: real, d: nat): real
    requires Shaped(t.ks, |q|) && |t.ks| == |t.vs| && forall i :: 0 <= i < |t.vs| ==> d < |t.vs[i]|
  {
    Dot(Weights(exp, q, t.ks, scale), Column(t.vs, d))
  }

  function Normalisers(exp: real -> real, q: Vec, ts: seq<Tile>, scale: real, dv: nat): (z: Vec)
    requires TilesOk(ts, |q|, dv)
    ensures |z| == |ts|
  {
    seq(|ts|, j requires 0 <= j < |ts| => Normaliser(exp, q, ts[j], scale))
  }

  function Numerators(exp: real -> real, q: Vec, ts: seq<Tile>, scale: real, d: nat, dv: nat): (z: Vec)
    requires TilesOk(ts, |q|, dv) && d < dv
    ensures |z| == |ts|
  {
    seq(|ts|, j requires 0 <= j < |ts| => Numerator(exp, q, ts[j], scale, d))
  }

  lemma {:induction false} TilesShaped(ts: seq<Tile>, dk: nat, dv: nat)
    requires TilesOk(ts, dk, dv)
    ensures |TileKeys(ts)| == |TileValues(ts)|
    ensures Shaped(TileKeys(ts), dk) && Shaped(TileValues(ts), dv)
    ensures ts != [] ==> TileKeys(ts) != []
  {
    if ts != [] {
      assert TileOk(ts[0], dk, dv);
      TilesShaped(ts[1..], dk, dv);
    }
  }

  /** The tiles' normalisers and numerators sum to those of the tokens they partition. */
  lemma {:induction false} TileTotals(exp: real -> real, q: Vec, ts: seq<Tile>, scale: real, d: nat, dv: nat)
    requires TilesOk(ts, |q|, dv) && d < dv
    ensures |TileKeys(ts)| == |TileValues(ts)| && Shaped(TileKeys(ts), |q|) && Shaped(TileValues(ts), dv)
    ensures Sum(Normalisers(exp, q, ts, scale, dv)) == Sum(Weights(exp, q, TileKeys(ts), scale))
    ensures Sum(Numerators(exp, q, ts, scale, d, dv))
         == Dot(Weights(exp, q, TileKeys(ts), scale), Column(TileValues(ts), d))
  {
    TilesShaped(ts, |q|, dv);
    if ts != [] {
      var rest := ts[1..];
      TilesShaped(rest, |q|, dv);
      TileTotals(exp, q, rest, scale, d, dv);
      PartAppend(exp, q, ts[0].ks, TileKeys(rest), ts[0].vs, TileValues(rest), scale, d, dv);
      assert Normalisers(exp, q, ts, scale, dv)[1..] == Normalisers(exp, q, rest, scale, dv);
      assert Numerators(exp, q, ts, scale, d, dv)[1..] == Numerators(exp, q, rest, scale, d, dv);
    }
  }

  function TileOutputs(exp: real -> real, q: Vec, ts: seq<Tile>, scale: real, dv: nat): (os: seq<Vec>)
    requires ExpPositive(exp) && TilesOk(ts, |q|, dv)
    ensures |os| == |ts| && Shaped(os, dv)
  {
    seq(|ts|, j requires 0 <= j < |ts| => Softmax(exp, q, ts[j].ks, ts[j].vs, scale, dv))
  }

  function TileLses(exp: real -> real, log: real -> real, q: Vec, ts: seq<Tile>, scale: real, dv: nat): (ls: Vec)
    requires TilesOk(ts, |q|, dv)
    ensures |ls| == |ts|
  {
    seq(|ts|, j requires 0 <= j < |ts| => TileLse(exp, log, q, ts[j], scale))
  }

  /** One coordinate of the merge over tiles is the quotient of the totals over their union. */
  lemma MergedCoordinate(exp: real -> real, log: real -> real, q: Vec, ts: seq<Tile>, scale: real, d: nat, dv: nat)
    requires ExpLog(exp, log) && ts != [] && TilesOk(ts, |q|, dv) && d < dv
    ensures TileKeys(ts) != [] && |TileKeys(ts)| == |TileValues(ts)|
    ensures Shaped(TileKeys(ts), |q|) && Shaped(TileValues(ts), dv)
    ensures Merge(exp, TileOutputs(exp, q, ts, scale, dv), TileLses(exp, log, q, ts, scale, dv), dv)[d]
         == Softmax(exp, q, TileKeys(ts), TileValues(ts), scale, dv)[d]
  {
    TilesShaped(ts, |q|, dv);
    var os, ls := TileOutputs(exp, q, ts, scale, dv), TileLses(exp, log, q, ts, scale, dv);
    var zs, ns := Normalisers(exp, q, ts, scale, dv), Numerators(exp, q, ts, scale, d, dv);
    var x := Column(os, d);
    forall j | 0 <= j < |ts| ensures zs[j] > 0.0 && ls[j] == log(zs[j]) && ShareOf(x[j], ns[j], zs[j]) {
      TileShare(exp, q, ts[j], scale, d, dv);
    }
    MergeTotals(exp, log, ns, zs, ls, x);
    TileTotals(exp, q, ts, scale, d, dv);
  }

  lemma TileShare(exp: real -> real, q: Vec, t: Tile, scale: real, d: nat, dv: nat)
    requires ExpPositive(exp) && TileOk(t, |q|, dv) && d < dv
    ensures Normaliser(exp, q, t, scale) > 0.0
    ensures ShareOf(Softmax(exp, q, t.ks, t.vs, scale, dv)[d], Numerator(exp, q, t, scale, d),
                    Normaliser(exp, q, t, scale))
  {
    WeightsPositive(exp, q, t.ks, scale);
    var n, z := Numerator(exp, q, t, scale, d), Normaliser(exp, q, t, scale);
    assert Softmax(exp, q, t.ks, t.vs, scale, dv)[d] == n / z;
    assert n / z * z == n;
  }

  /** Merging the parts by log-sum-exp is one softmax over the tokens they partition, whatever
      the partition. */
  lemma MergeIsSoftmax(exp: real -> real, log: real -> real, q: Vec, ts: seq<Tile>, scale: real, dv: nat)
    requires ExpLog(exp, log) && ts != [] && TilesOk(ts, |q|, dv)
    ensures TileKeys(ts) != [] && |TileKeys(ts)| == |TileValues(ts)|
    ensures Shaped(TileKeys(ts), |q|) && Shaped(TileValues(ts), dv)
    ensures Merge(exp, TileOutputs(exp, q, ts, scale, dv), TileLses(exp, log, q, ts, scale, dv), dv)
         == Softmax(exp, q, TileKeys(ts), TileValues(ts), scale, dv)
  {
    TilesShaped(ts, |q|, dv);
    var m := Merge(exp, TileOutputs(exp, q, ts, scale, dv), TileLses(exp, log, q, ts, scale, dv), dv);
    var o := Softmax(exp, q, TileKeys(ts), TileValues(ts), scale, dv);
    forall d | 0 <= d < dv ensures m[d] == o[d] {
      MergedCoordinate(exp, log, q, ts, scale, d, dv);
    }
  }

  /** The order in which two stretches of tokens are listed does not change their softmax. */
  lemma SoftmaxSwap(exp: real -> real, q: Vec, a: Tile, b: Tile, scale: real, dv: nat)
    requires ExpPositive(exp) && |a.ks| == |a.vs| && |b.ks| == |b.vs| && a.ks + b.ks != []
    requires Shaped(a.ks, |q|) && Shaped(b.ks, |q|) && Shaped(a.vs, dv) && Shaped(b.vs, dv)
    ensures b.ks + a.ks != []
    ensures Softmax(exp, q, a.ks + b.ks, a.vs + b.vs, scale, dv)
         == Softmax(exp, q, b.ks + a.ks, b.vs + a.vs, scale, dv)
  {
    assert |b.ks + a.ks| == |a.ks + b.ks|;
    var x := Softmax(exp, q, a.ks + b.ks, a.vs + b.vs, scale, dv);
    var y := Softmax(exp, q, b.ks + a.ks, b.vs + a.vs, scale, dv);
    forall d | 0 <= d < dv ensures x[d] == y[d] {
      PartAppend(exp, q, a.ks, b.ks, a.vs, b.vs, scale, d, dv);
      PartAppend(exp, q, b.ks, a.ks, b.vs, a.vs, scale, d, dv);
    }
  }

  // ---- softmax entry by entry ----

  /** The inner product of the first `n` entries. */
  function Inner(a: Vec, b: Vec, n: nat): real
    requires n <= |a| && n <= |b|
  {
    if n == 0 then 0.0 else Inner(a, b, n - 1) + a[n - 1] * b[n - 1]
  }

  lemma {:induction false} DotSnoc(a: Vec, b: Vec, n: nat)
    requires n <= |a| && n <= |b|
    ensures Dot(a[..n], b[..n]) == Inner(a, b, n)
  {
    if n > 0 {
      DotSnoc(a, b, n - 1);
      assert a[..n] == a[..n - 1] + [a[n - 1]] && b[..n] == b[..n - 1] + [b[n - 1]];
      DotAppend(a[..n - 1], [a[n - 1]], b[..n - 1], [b[n - 1]]);
      DotOne(a[n - 1], b[n - 1]);
    }
  }

  lemma DotOne(x: real, y: real)
    ensures Dot([x], [y]) == x * y && Sum([x]) == x
  {
    assert [x][1..] == [] && [y][1..] == [];
  }

  function Similarity(q: Vec, k: Vec, scale: real): real
    requires |k| == |q|
  {
    Inner(q, k, |q|) * scale
  }

  /** The exponential of a key's scaled inner product with the query. */
  function Pays(exp: real -> real, q: Vec, k: Vec, scale: real): real
    requires |k| == |q|
  {
    exp(Similarity(q, k, scale))
  }

  lemma WeightIs(exp: real -> real, q: Vec, k: Vec, scale: real)
    requires |k| == |q|
    ensures WeightOf(exp, q, k, scale) == Pays(exp, q, k, scale)
  {
    DotSnoc(q, k, |q|);
    assert q[..|q|] == q && k[..|q|] == k;
    assert Logit(q, k, scale) == Similarity(q, k, scale);
  }

  /** The first `n` keys' exponentials added up. */
  function WeightSum(exp: real -> real, q: Vec, ks: seq<Vec>, scale: real, n: nat): real
    requires Shaped(ks, |q|) && n <= |ks|
  {
    if n == 0 then 0.0 else WeightSum(exp, q, ks, scale, n - 1) + Pays(exp, q, ks[n - 1], scale)
  }

  /** The same with every one times entry `d` of its value. */
  function WeighedSum(exp: real -> real, q: Vec, ks: seq<Vec>, vs: seq<Vec>, scale: real, d: nat, n: nat): real
    requires Shaped(ks, |q|) && n <= |ks| && n <= |vs| && forall i :: 0 <= i < |vs| ==> d < |vs[i]|
  {
    if n == 0 then 0.0
    else WeighedSum(exp, q, ks, vs, scale, d, n - 1) + Pays(exp, q, ks[n - 1], scale) * vs[n - 1][d]
  }

  lemma {:induction false} SumsAre(exp: real -> real, q: Vec, ks: seq<Vec>, vs: seq<Vec>, scale: real, dv: nat, d: nat,
                                   n: nat)
    requires Shaped(ks, |q|) && Shaped(vs, dv) && d < dv && n <= |ks| == |vs|
    ensures Sum(Weights(exp, q, ks[..n], scale)) == WeightSum(exp, q, ks, scale, n)
    ensures Dot(Weights(exp, q, ks[..n], scale), Column(vs[..n], d)) == WeighedSum(exp, q, ks, vs, scale, d, n)
  {
    if n > 0 {
      SumsAre(exp, q, ks, vs, scale, dv, d, n - 1);
      OneMore(exp, q, ks, vs, scale, dv, d, n);
    }
  }

  lemma OneMore(exp: real -> real, q: Vec, ks: seq<Vec>, vs: seq<Vec>, scale: real, dv: nat, d: nat, n: nat)
    requires Shaped(ks, |q|) && Shaped(vs, dv) && d < dv && 0 < n <= |ks| == |vs|
    ensures Sum(Weights(exp, q, ks[..n], scale))
         == Sum(Weights(exp, q, ks[..n - 1], scale)) + Pays(exp, q, ks[n - 1], scale)
    ensures Dot(Weights(exp, q, ks[..n], scale), Column(vs[..n], d))
         == Dot(Weights(exp, q, ks[..n - 1], scale), Column(vs[..n - 1], d))
           + Pays(exp, q, ks[n - 1], scale) * vs[n - 1][d]
  {
    TakeOneMore(ks, n);
    TakeOneMore(vs, n);
    OnePart(exp, q, ks[..n - 1], vs[..n - 1], ks[n - 1], vs[n - 1], scale, dv, d);
  }

  lemma OnePart(exp: real -> real, q: Vec, a: seq<Vec>, x: seq<Vec>, k: Vec, v: Vec, scale: real, dv: nat, d: nat)
    requires Shaped(a, |q|) && Shaped(x, dv) && |k| == |q| && |v| == dv && d < dv && |a| == |x|
    ensures Shaped(a + [k], |q|) && Shaped(x + [v], dv)
    ensures Sum(Weights(exp, q, a + [k], scale)) == Sum(Weights(exp, q, a, scale)) + Pays(exp, q, k, scale)
    ensures Dot(Weights(exp, q, a + [k], scale), Column(x + [v], d))
         == Dot(Weights(exp, q, a, scale), Column(x, d)) + Pays(exp, q, k, scale) * v[d]
  {
    PartAppend(exp, q, a, [k], x, [v], scale, d, dv);
    LastPart(exp, q, k, v, scale, d);
  }

  lemma TakeOneMore<T>(s: seq<T>, n: nat)
    requires 0 < n <= |s|
    ensures s[..n] == s[..n - 1] + [s[n - 1]]
  {}

  lemma LastPart(exp: real -> real, q: Vec, k: Vec, v: Vec, scale: real, d: nat)
    requires |k| == |q| && d < |v|
    ensures Sum(Weights(exp, q, [k], scale)) == Pays(exp, q, k, scale)
    ensures Dot(Weights(exp, q, [k], scale), Column([v], d)) == Pays(exp, q, k, scale) * v[d]
  {
    WeightIs(exp, q, k, scale);
    assert Weights(exp, q, [k], scale) == [Pays(exp, q, k, scale)];
    assert Column([v], d) == [v[d]];
    DotOne(Pays(exp, q, k, scale), v[d]);
  }

  /** Every entry of a softmax output is the mean of the values' entries, each weighed by the exponential of its key's
      scaled inner product with the query. */
  ghost predicate AttendsTo(exp: real -> real, o: Vec, q: Vec, ks: seq<Vec>, vs: seq<Vec>, scale: real, n: nat)
    requires Shaped(ks, |q|) && n <= |ks| == |vs| && Shaped(vs, |o|)
  {
    && WeightSum(exp, q, ks, scale, n) > 0.0
    && forall d :: 0 <= d < |o| ==> o[d] * WeightSum(exp, q, ks, scale, n) == WeighedSum(exp, q, ks, vs, scale, d, n)
  }

  lemma SoftmaxAttends(exp: real -> real, q: Vec, ks: seq<Vec>, vs: seq<Vec>, scale: real, dv: nat, n: nat)
    requires ExpPositive(exp) && Shaped(ks, |q|) && Shaped(vs, dv) && 0 < n <= |ks| == |vs|
    ensures AttendsTo(exp, Softmax(exp, q, ks[..n], vs[..n], scale, dv), q, ks, vs, scale, n)
  {
    WeightSumPositive(exp, q, ks, scale, n);
    var o := Softmax(exp, q, ks[..n], vs[..n], scale, dv);
    forall d | 0 <= d < dv
      ensures o[d] * WeightSum(exp, q, ks, scale, n) == WeighedSum(exp, q, ks, vs, scale, d, n)
    {
      SoftmaxEntry(exp, q, ks, vs, scale, dv, d, n);
    }
  }

  lemma SoftmaxEntry(exp: real -> real, q: Vec, ks: seq<Vec>, vs: seq<Vec>, scale: real, dv: nat, d: nat, n: nat)
    requires ExpPositive(exp) && Shaped(ks, |q|) && Shaped(vs, dv) && 0 < n <= |ks| == |vs| && d < dv
    ensures Softmax(exp, q, ks[..n], vs[..n], scale, dv)[d] * WeightSum(exp, q, ks, scale, n)
         == WeighedSum(exp, q, ks, vs, scale, d, n)
  {
    SumsAre(exp, q, ks, vs, scale, dv, d, n);
    WeightsPositive(exp, q, ks[..n], scale);
    Back(Dot(Weights(exp, q, ks[..n], scale), Column(vs[..n], d)), Sum(Weights(exp, q, ks[..n], scale)));
  }

  lemma {:induction false} WeightSumPositive(exp: real -> real, q: Vec, ks: seq<Vec>, scale: real, n: nat)
    requires ExpPositive(exp) && Shaped(ks, |q|) && n <= |ks|
    ensures WeightSum(exp, q, ks, scale, n) >= 0.0 && (n > 0 ==> WeightSum(exp, q, ks, scale, n) > 0.0)
  {
    if n > 0 { WeightSumPositive(exp, q, ks, scale, n - 1); }
  }

  lemma Back(a: real, b: real)
    requires b > 0.0
    ensures a / b * b == a
  {}
}
