/** The registered attention function over a tiled layer: an explicit read of the window under
    its mask, an unmasked read of the history a tile at a time, and the merge. One group of
    query heads sharing a key/value head is modelled. */
module TiledForward {
  import opened Options
  import opened Nums
  import opened Seqs
  import opened KiviCodes
  import opened KiviCache
  import opened KiviReadback
  import opened TiledAttention
  import L = KiviLayer

  /** A tile stops growing once it holds this many tokens. */
  const TILE_TOKENS: nat := 8192

  /** A masked score is minus infinity, and weighs nothing. */
  datatype Score = NegInf | Fin(value: real)

  function ExpScore(exp: real -> real, s: Score): real {
    if s.NegInf? then 0.0 else exp(s.value)
  }

  type Mask = Option<seq<seq<bool>>>

  ghost predicate MaskShape(mask: Mask, nQ: nat, nRes: nat) {
    mask.Some? ==> |mask.value| == nQ && forall r :: 0 <= r < nQ ==> |mask.value[r]| >= nRes
  }

  /** Whether window column `c` is hidden from query `t`: by the last `nRes` columns of a given
      mask, or by the strict upper triangle when there is none and several queries. */
  predicate Hidden(mask: Mask, nQ: nat, nRes: nat, t: nat, c: nat)
    requires MaskShape(mask, nQ, nRes) && t < nQ && c < nRes
  {
    match mask
    case Some(m) => !m[t][|m[t]| - nRes + c]
    case None => nQ > 1 && c - t >= 1 + nRes - nQ
  }

  /** The mask the model library passes: query `t` of the last `nQ` tokens sees itself and
      everything before it. */
  ghost predicate Causal(mask: Mask, nQ: nat, nRes: nat) {
    && MaskShape(mask, nQ, nRes)
    && (mask.Some? ==>
          forall t, c :: 0 <= t < nQ && 0 <= c < |mask.value[t]| ==>
            (mask.value[t][c] <==> c <= |mask.value[t]| - nQ + t))
  }

  lemma HiddenAfter(mask: Mask, nQ: nat, nRes: nat, t: nat, c: nat)
    requires Causal(mask, nQ, nRes) && t < nQ <= nRes && c < nRes
    ensures Hidden(mask, nQ, nRes, t, c) <==> c >= nRes - nQ + t + 1
  {
    if mask.Some? {
      var at := |mask.value[t]| - nRes + c;
      assert mask.value[t][at] <==> at <= |mask.value[t]| - nQ + t;
    }
  }

  /** The same mask over all `n` cached tokens, before its last columns are sliced out. */
  ghost predicate CausalOver(mask: Mask, nQ: nat, n: nat) {
    mask.Some? ==>
      && |mask.value| == nQ
      && forall t :: 0 <= t < nQ ==>
           |mask.value[t]| == n && forall c :: 0 <= c < n ==> (mask.value[t][c] <==> c <= n - nQ + t)
  }

  function ScoreOf(q: Vec, k: Vec, scale: real, hidden: bool): (s: Score)
    requires |k| == |q|
  {
    if hidden then NegInf else Fin(Logit(q, k, scale))
  }

  function Scores(q: Vec, key: seq<Vec>, mask: Mask, nQ: nat, t: nat, scale: real): (s: seq<Score>)
    requires Shaped(key, |q|) && MaskShape(mask, nQ, |key|) && t < nQ
    ensures |s| == |key|
    ensures forall c :: 0 <= c < |key| ==> s[c] == ScoreOf(q, key[c], scale, Hidden(mask, nQ, |key|, t, c))
  {
    seq(|key|, c requires 0 <= c < |key| => ScoreOf(q, key[c], scale, Hidden(mask, nQ, |key|, t, c)))
  }

  function ScoreWeights(exp: real -> real, s: seq<Score>): (w: Vec)
    ensures |w| == |s| && forall c :: 0 <= c < |s| ==> w[c] == ExpScore(exp, s[c])
  {
    seq(|s|, c requires 0 <= c < |s| => ExpScore(exp, s[c]))
  }

  /** Under the causal mask, query `t` reads exactly the window up to its own token. */
  lemma MaskedWindow(exp: real -> real, q: Vec, key: seq<Vec>, value: seq<Vec>, mask: Mask, nQ: nat, t: nat,
                     scale: real, dv: nat)
    requires ExpPositive(exp) && |key| == |value| && Shaped(key, |q|) && Shaped(value, dv)
    requires t < nQ <= |key| && Causal(mask, nQ, |key|)
    ensures var w, m := ScoreWeights(exp, Scores(q, key, mask, nQ, t, scale)), |key| - nQ + t + 1;
            && Sum(w) == Sum(Weights(exp, q, key[..m], scale)) && Sum(w) > 0.0
            && Mean(w, value, dv) == Softmax(exp, q, key[..m], value[..m], scale, dv)
  {
    var w, m := ScoreWeights(exp, Scores(q, key, mask, nQ, t, scale)), |key| - nQ + t + 1;
    var seen, hidden := Weights(exp, q, key[..m], scale), seq(|key| - m, _ => 0.0);
    forall c | 0 <= c < |key| ensures w[c] == (seen + hidden)[c] {
      HiddenAfter(mask, nQ, |key|, t, c);
      if c < m { assert w[c] == WeightOf(exp, q, key[..m][c], scale); }
    }
    assert w == seen + hidden;
    ZeroWeights(hidden, hidden);
    SumAppend(seen, hidden);
    WeightsPositive(exp, q, key[..m], scale);
    var a, b := Mean(w, value, dv), Softmax(exp, q, key[..m], value[..m], scale, dv);
    forall d | 0 <= d < dv ensures a[d] == b[d] {
      assert value == value[..m] + value[m..];
      ColumnAppend(value[..m], value[m..], d, dv);
      ZeroWeights(hidden, Column(value[m..], d));
      DotAppend(seen, hidden, Column(value[..m], d), Column(value[m..], d));
    }
  }

  // ---- the history's entries ----

  /** Every entry of the history is a non-empty batch of as many keys as values. */
  ghost predicate EntriesOk(c: Config, s: Store) {
    |s.k| == |s.v| && forall i :: 0 <= i < |s.k| ==> EntryOk(c, s.k[i], s.v[i])
  }

  ghost predicate EntryOk(c: Config, k: seq<KUnit>, v: seq<VUnit>) {
    && v != [] && |RestoreKeys(c.bits, k)| == |v|
    && Shaped(RestoreKeys(c.bits, k), c.dk) && Shaped(RestoreValues(c.bits, v), c.dv)
  }

  lemma QuantizeKeepsEntries(c: Config, s: Store, keepTail: nat)
    requires Fits(c, s) && EntriesOk(c, s)
    ensures EntriesOk(c, QuantizeInto(c, s, keepTail))
  {
    var q := QuantCount(|s.rk|, if c.residual < keepTail then keepTail else c.residual, c.group);
    RestoredKeys(c, s.rk[..q]);
    RestoredValues(c, s.rv[..q]);
  }

  lemma RestoredValues(c: Config, vs: seq<Vec>)
    requires c.Ok() && Shaped(vs, c.dv)
    ensures var r := RestoreValues(c.bits, EncodeValues(c, vs));
            |r| == |vs| && Shaped(r, c.dv) && (c.bits.Sixteen? ==> r == vs)
  {
    var r := RestoreValues(c.bits, EncodeValues(c, vs));
    forall i | 0 <= i < |r| ensures |r[i]| == c.dv && (c.bits.Sixteen? ==> r[i] == vs[i]) {
      if c.bits.Low? { ValueHalfStep(c.bits.width, vs[i], 0); }
    }
  }

  lemma {:induction false} LazyEntries(c: Config, run: seq<Call>)
    requires CallsFit(c, run)
    ensures EntriesOk(c, LazyRun(c, run))
  {
    if run != [] {
      LazyEntries(c, run[..|run| - 1]);
      QuantizeKeepsEntries(c, LazyRun(c, run[..|run| - 1]), 0);
    }
  }

  // ---- the tiles ----

  /** Entry `i` dequantized. */
  function Block(c: Config, k: seq<seq<KUnit>>, v: seq<seq<VUnit>>, i: nat): (t: Tile)
    requires i < |k| == |v|
  {
    Tile(RestoreKeys(c.bits, k[i]), RestoreValues(c.bits, v[i]))
  }

  ghost function Blocks(c: Config, k: seq<seq<KUnit>>, v: seq<seq<VUnit>>): (bs: seq<Tile>)
    requires |k| == |v|
    ensures |bs| == |k| && forall i :: 0 <= i < |k| ==> bs[i] == Block(c, k, v, i)
  {
    seq(|k|, i requires 0 <= i < |k| => Block(c, k, v, i))
  }

  /** The dequantized entries in order are the restored history. */
  lemma {:induction false} BlocksRestore(c: Config, k: seq<seq<KUnit>>, v: seq<seq<VUnit>>)
    requires |k| == |v|
    ensures TileKeys(Blocks(c, k, v)) == RestoreKeys(c.bits, Flat(k))
    ensures TileValues(Blocks(c, k, v)) == RestoreValues(c.bits, Flat(v))
  {
    if k != [] {
      BlocksRestore(c, k[1..], v[1..]);
      BlocksTail(c, k, v);
      RestoreKeysAppend(c.bits, k[0], Flat(k[1..]));
      RestoreValuesAppend(c.bits, v[0], Flat(v[1..]));
    }
  }

  lemma BlocksTail(c: Config, k: seq<seq<KUnit>>, v: seq<seq<VUnit>>)
    requires |k| == |v| > 0
    ensures Blocks(c, k, v)[1..] == Blocks(c, k[1..], v[1..])
    ensures Blocks(c, k, v)[0] == Tile(RestoreKeys(c.bits, k[0]), RestoreValues(c.bits, v[0]))
  {}

  /** The tiles partition the history in order; each but the last holds at least a tile's worth. */
  ghost predicate Partition(ts: seq<Tile>, blocks: seq<Tile>) {
    && TileKeys(ts) == TileKeys(blocks) && TileValues(ts) == TileValues(blocks)
    && forall j :: 0 <= j < |ts| - 1 ==> |ts[j].ks| >= 8192
  }

  /** No entry holds more than `m` tokens. */
  ghost predicate EntriesUpTo(bs: seq<Tile>, m: nat) {
    forall i :: 0 <= i < |bs| ==> |bs[i].ks| <= m
  }

  ghost predicate TilesUnder(ts: seq<Tile>, m: nat) {
    forall j :: 0 <= j < |ts| ==> |ts[j].ks| < m
  }

  /** Groups the history's entries into tiles, in order. */
  method CutTiles(c: Config, k: seq<seq<KUnit>>, v: seq<seq<VUnit>>) returns (ts: seq<Tile>)
    requires |k| == |v| && TilesOk(Blocks(c, k, v), c.dk, c.dv)
    ensures TilesOk(ts, c.dk, c.dv) && Partition(ts, Blocks(c, k, v))
    ensures forall m: nat :: EntriesUpTo(Blocks(c, k, v), m) ==> TilesUnder(ts, 8192 + m)
  {
    ts := [];
    var i := 0;
    ghost var bs := Blocks(c, k, v);
    while i < |k|
      invariant 0 <= i <= |k| && TilesOk(ts, c.dk, c.dv)
      invariant Partition(ts, bs[..i])
      invariant i < |k| ==> forall j :: 0 <= j < |ts| ==> |ts[j].ks| >= TILE_TOKENS
      invariant forall m: nat :: EntriesUpTo(bs, m) ==> TilesUnder(ts, TILE_TOKENS + m)
    {
      var t, next := TakeTile(c, k, v, i);
      TilesSnoc(ts, t);
      forall m: nat | EntriesUpTo(bs, m) ensures TilesUnder(ts + [t], TILE_TOKENS + m) {
        assert |bs[next - 1].ks| <= m;
      }
      ts, i := ts + [t], next;
    }
    assert bs[..i] == bs;
  }

  /** Dequantizes entries from `start` on until they make a tile or run out. */
  method TakeTile(c: Config, k: seq<seq<KUnit>>, v: seq<seq<VUnit>>, start: nat) returns (t: Tile, next: nat)
    requires |k| == |v| && TilesOk(Blocks(c, k, v), c.dk, c.dv)
    requires start < |k|
    ensures start < next <= |k| && TileOk(t, c.dk, c.dv)
    ensures next < |k| ==> |t.ks| >= 8192
    ensures |t.ks| < 8192 + |Blocks(c, k, v)[next - 1].ks|
    ensures TileKeys(Blocks(c, k, v)[..next]) == TileKeys(Blocks(c, k, v)[..start]) + t.ks
    ensures TileValues(Blocks(c, k, v)[..next]) == TileValues(Blocks(c, k, v)[..start]) + t.vs
  {
    var ks: seq<Vec>, vs: seq<Vec>, n := [], [], 0;
    next := start;
    ghost var bs := Blocks(c, k, v);
    while next < |k| && (n == 0 || n < TILE_TOKENS)
      invariant start <= next <= |k| && n == |vs| == |ks|
      invariant next > start ==> 0 < n < TILE_TOKENS + |bs[next - 1].ks|
      invariant Shaped(ks, c.dk) && Shaped(vs, c.dv)
      invariant TileKeys(bs[..next]) == TileKeys(bs[..start]) + ks
      invariant TileValues(bs[..next]) == TileValues(bs[..start]) + vs
      decreases |k| - next
    {
      var b := Block(c, k, v, next);
      assert b == bs[next] && TileOk(bs[next], c.dk, c.dv);
      ExtendTile(bs, next, TileKeys(bs[..start]), TileValues(bs[..start]), ks, vs);
      ks, vs := ks + b.ks, vs + b.vs;
      n := |vs|;
      next := next + 1;
    }
    t := Tile(ks, vs);
  }

  lemma ExtendTile(bs: seq<Tile>, i: nat, x: seq<Vec>, y: seq<Vec>, ks: seq<Vec>, vs: seq<Vec>)
    requires i < |bs| && TileKeys(bs[..i]) == x + ks && TileValues(bs[..i]) == y + vs
    ensures TileKeys(bs[..i + 1]) == x + (ks + bs[i].ks)
    ensures TileValues(bs[..i + 1]) == y + (vs + bs[i].vs)
  {
    assert bs[..i + 1] == bs[..i] + [bs[i]];
    TilesSnoc(bs[..i], bs[i]);
    assert (x + ks) + bs[i].ks == x + (ks + bs[i].ks);
    assert (y + vs) + bs[i].vs == y + (vs + bs[i].vs);
  }

  lemma EntriesMakeTiles(c: Config, s: Store)
    requires EntriesOk(c, s)
    ensures TilesOk(Blocks(c, s.k, s.v), c.dk, c.dv)
  {
    var bs := Blocks(c, s.k, s.v);
    forall i | 0 <= i < |bs| ensures TileOk(bs[i], c.dk, c.dv) {
      assert EntryOk(c, s.k[i], s.v[i]);
    }
  }

  // ---- one row of the merge ----

  /** The parts a row merges: the window it may see, then the tiles. */
  function Parts(key: seq<Vec>, value: seq<Vec>, m: nat, ts: seq<Tile>): (p: seq<Tile>)
    requires m <= |key| == |value|
  {
    [Tile(key[..m], value[..m])] + ts
  }

  /** Merging the masked window read with the tile reads is the causal softmax over the history
      followed by the window. */
  lemma RowExact(exp: real -> real, log: real -> real, q: Vec, ts: seq<Tile>, key: seq<Vec>, value: seq<Vec>, m: nat,
                 scale: real, dv: nat)
    requires ExpLog(exp, log) && TilesOk(ts, |q|, dv)
    requires 0 < m <= |key| == |value| && Shaped(key, |q|) && Shaped(value, dv)
    ensures var p := Parts(key, value, m, ts);
            var ks, vs := TileKeys(ts) + key[..m], TileValues(ts) + value[..m];
            && TilesOk(p, |q|, dv) && |ks| == |vs| && Shaped(ks, |q|) && Shaped(vs, dv)
            && Merge(exp, TileOutputs(exp, q, p, scale, dv), TileLses(exp, log, q, p, scale, dv), dv)
            == Softmax(exp, q, ks, vs, scale, dv)
  {
    var w := Tile(key[..m], value[..m]);
    var p := Parts(key, value, m, ts);
    assert TileOk(w, |q|, dv);
    assert TilesOk(p, |q|, dv);
    MergeIsSoftmax(exp, log, q, p, scale, dv);
    TilesShaped(ts, |q|, dv);
    assert p[1..] == ts;
    var hist := Tile(TileKeys(ts), TileValues(ts));
    SoftmaxSwap(exp, q, w, hist, scale, dv);
  }

  /** The shapes a forward delivers: every head has the same `nQ` queries, which are the newest
      tokens of the window. */
  ghost predicate QueriesOk(query: seq<seq<Vec>>, nQ: nat, dk: nat) {
    nQ > 0 && forall h :: 0 <= h < |query| ==> |query[h]| == nQ && Shaped(query[h], dk)
  }

  /** What one row's attention must be: a single softmax over the tokens at or before it, entry by entry. */
  ghost predicate RowIsCausal(exp: real -> real, o: Vec, q: Vec, ks: seq<Vec>, vs: seq<Vec>, nQ: nat, t: nat,
                              scale: real, dv: nat)
    requires ExpPositive(exp) && t < nQ <= |ks| == |vs| && Shaped(ks, |q|) && Shaped(vs, dv)
  {
    && o == Softmax(exp, q, ks[..|ks| - nQ + t + 1], vs[..|vs| - nQ + t + 1], scale, dv)
    && AttendsTo(exp, o, q, ks, vs, scale, |ks| - nQ + t + 1)
  }

  /** The merge, read by read. */
  lemma RowMerged(exp: real -> real, log: real -> real, q: Vec, ts: seq<Tile>, key: seq<Vec>, value: seq<Vec>, m: nat,
                  scale: real, dv: nat)
    requires ExpLog(exp, log) && TilesOk(ts, |q|, dv)
    requires 0 < m <= |key| == |value| && Shaped(key, |q|) && Shaped(value, dv)
    ensures var ks, vs := TileKeys(ts) + key[..m], TileValues(ts) + value[..m];
            var outs := [Softmax(exp, q, key[..m], value[..m], scale, dv)] + TileOutputs(exp, q, ts, scale, dv);
            var lses := [TileLse(exp, log, q, Tile(key[..m], value[..m]), scale)]
              + TileLses(exp, log, q, ts, scale, dv);
            && |ks| == |vs| && Shaped(ks, |q|) && Shaped(vs, dv)
            && Merge(exp, outs, lses, dv) == Softmax(exp, q, ks, vs, scale, dv)
  {
    PartsRead(exp, log, q, Tile(key[..m], value[..m]), ts, scale, dv);
    RowExact(exp, log, q, ts, key, value, m, scale, dv);
  }

  /** Leaving out the last `k` members of a concatenation. */
  lemma SeenAfter<T>(a: seq<T>, b: seq<T>, k: nat)
    requires k < |b|
    ensures (a + b)[..|a + b| - k] == a + b[..|b| - k]
  {}

  lemma RowOf(exp: real -> real, o: Vec, q: Vec, hk: seq<Vec>, hv: seq<Vec>, key: seq<Vec>, value: seq<Vec>, nQ: nat,
              t: nat, scale: real, dv: nat)
    requires ExpPositive(exp) && t < nQ <= |key| == |value| && |hk| == |hv|
    requires Shaped(hk, |q|) && Shaped(hv, dv) && Shaped(key, |q|) && Shaped(value, dv)
    requires var m := |key| - nQ + t + 1; o == Softmax(exp, q, hk + key[..m], hv + value[..m], scale, dv)
    ensures Shaped(hk + key, |q|) && Shaped(hv + value, dv)
    ensures RowIsCausal(exp, o, q, hk + key, hv + value, nQ, t, scale, dv)
  {
    SeenAfter(hk, key, nQ - t - 1);
    SeenAfter(hv, value, nQ - t - 1);
    SoftmaxAttends(exp, q, hk + key, hv + value, scale, dv, |hk + key| - nQ + t + 1);
  }

  /** One row: masked window read, tile reads, shifted merge. */
  method AttendRow(exp: real -> real, log: real -> real, q: Vec, ts: seq<Tile>, key: seq<Vec>, value: seq<Vec>,
                   mask: Mask, nQ: nat, t: nat, scale: real, dv: nat) returns (o: Vec)
    requires ExpLog(exp, log) && TilesOk(ts, |q|, dv)
    requires t < nQ <= |key| == |value| && Shaped(key, |q|) && Shaped(value, dv) && Causal(mask, nQ, |key|)
    ensures var ks, vs := TileKeys(ts) + key, TileValues(ts) + value;
            && |ks| == |vs| && Shaped(ks, |q|) && Shaped(vs, dv)
            && RowIsCausal(exp, o, q, ks, vs, nQ, t, scale, dv)
  {
    o := MergeReads(exp, log, q, ts, key, value, mask, nQ, t, scale, dv);
    TilesShaped(ts, |q|, dv);
    RowOf(exp, o, q, TileKeys(ts), TileValues(ts), key, value, nQ, t, scale, dv);
  }

  /** The reads of one row and their merge: one softmax over the history and the window up to the row's
      own token. */
  method MergeReads(exp: real -> real, log: real -> real, q: Vec, ts: seq<Tile>, key: seq<Vec>, value: seq<Vec>,
                    mask: Mask, nQ: nat, t: nat, scale: real, dv: nat) returns (o: Vec)
    requires ExpLog(exp, log) && TilesOk(ts, |q|, dv)
    requires t < nQ <= |key| == |value| && Shaped(key, |q|) && Shaped(value, dv) && Causal(mask, nQ, |key|)
    ensures var m := |key| - nQ + t + 1;
            var ks, vs := TileKeys(ts) + key[..m], TileValues(ts) + value[..m];
            && |ks| == |vs| && Shaped(ks, |q|) && Shaped(vs, dv)
            && o == Softmax(exp, q, ks, vs, scale, dv)
  {
    ghost var m := FirstRead(exp, log, q, key, value, mask, nQ, t, scale, dv);
    var w := ScoreWeights(exp, Scores(q, key, mask, nQ, t, scale));
    o := MergeTiles(exp, log, q, ts, Mean(w, value, dv), log(Sum(w)), key, value, m, scale, dv);
  }

  /** The tiles' part, and the merge with what the window's part left. */
  method MergeTiles(exp: real -> real, log: real -> real, q: Vec, ts: seq<Tile>, out: Vec, lse: real,
                    ghost key: seq<Vec>, ghost value: seq<Vec>, ghost m: nat, scale: real, dv: nat) returns (o: Vec)
    requires ExpLog(exp, log) && TilesOk(ts, |q|, dv)
    requires 0 < m <= |key| == |value| && Shaped(key, |q|) && Shaped(value, dv)
    requires out == Softmax(exp, q, key[..m], value[..m], scale, dv)
    requires lse == TileLse(exp, log, q, Tile(key[..m], value[..m]), scale)
    ensures var ks, vs := TileKeys(ts) + key[..m], TileValues(ts) + value[..m];
            && |ks| == |vs| && Shaped(ks, |q|) && Shaped(vs, dv)
            && o == Softmax(exp, q, ks, vs, scale, dv)
  {
    var os, ls := ReadTiles(exp, log, q, ts, scale, dv);
    o := Merge(exp, [out] + os, [lse] + ls, dv);
    RowMerged(exp, log, q, ts, key, value, m, scale, dv);
  }

  /** The window's part of a row. */
  lemma FirstRead(exp: real -> real, log: real -> real, q: Vec, key: seq<Vec>, value: seq<Vec>, mask: Mask, nQ: nat,
                  t: nat, scale: real, dv: nat) returns (m: nat)
    requires ExpPositive(exp) && |key| == |value| && Shaped(key, |q|) && Shaped(value, dv)
    requires t < nQ <= |key| && Causal(mask, nQ, |key|)
    ensures 0 < m == |key| - nQ + t + 1 <= |key|
    ensures var w := ScoreWeights(exp, Scores(q, key, mask, nQ, t, scale));
            && Sum(w) > 0.0 && Mean(w, value, dv) == Softmax(exp, q, key[..m], value[..m], scale, dv)
            && log(Sum(w)) == TileLse(exp, log, q, Tile(key[..m], value[..m]), scale)
  {
    m := |key| - nQ + t + 1;
    MaskedWindow(exp, q, key, value, mask, nQ, t, scale, dv);
  }

  /** The fused kernel's output and log-sum-exp for every tile. */
  method ReadTiles(exp: real -> real, log: real -> real, q: Vec, ts: seq<Tile>, scale: real, dv: nat)
    returns (outs: seq<Vec>, lses: Vec)
    requires ExpPositive(exp) && TilesOk(ts, |q|, dv)
    ensures outs == TileOutputs(exp, q, ts, scale, dv) && lses == TileLses(exp, log, q, ts, scale, dv)
  {
    outs, lses := [], [];
    for j := 0 to |ts|
      invariant outs == TileOutputs(exp, q, ts, scale, dv)[..j]
      invariant lses == TileLses(exp, log, q, ts, scale, dv)[..j]
    {
      outs := outs + [Softmax(exp, q, ts[j].ks, ts[j].vs, scale, dv)];
      lses := lses + [TileLse(exp, log, q, ts[j], scale)];
    }
  }

  lemma PartsRead(exp: real -> real, log: real -> real, q: Vec, t: Tile, ts: seq<Tile>, scale: real, dv: nat)
    requires ExpPositive(exp) && TileOk(t, |q|, dv) && TilesOk(ts, |q|, dv)
    ensures TilesOk([t] + ts, |q|, dv)
    ensures TileOutputs(exp, q, [t] + ts, scale, dv)
         == [Softmax(exp, q, t.ks, t.vs, scale, dv)] + TileOutputs(exp, q, ts, scale, dv)
    ensures TileLses(exp, log, q, [t] + ts, scale, dv)
            == [TileLse(exp, log, q, t, scale)] + TileLses(exp, log, q, ts, scale, dv)
  {}

  /** The tiled read: for every head of the group and every query, the merge of the window and
      the history tiles equals one causal softmax over everything cached. */
  method Attend(exp: real -> real, log: real -> real, layer: L.Layer, query: seq<seq<Vec>>, nQ: nat,
                key: seq<Vec>, value: seq<Vec>, mask: Mask, scale: real) returns (out: seq<seq<Vec>>)
    requires ExpLog(exp, log) && layer.Valid() && EntriesOk(layer.cfg, layer.State())
    requires key == layer.State().rk && value == layer.State().rv
    requires QueriesOk(query, nQ, layer.cfg.dk) && nQ <= |key| && Causal(mask, nQ, |key|)
    ensures |out| == |query|
    ensures var c, s := layer.cfg, layer.State();
            var ks, vs := RestoreKeys(c.bits, Flat(s.k)) + s.rk, RestoreValues(c.bits, Flat(s.v)) + s.rv;
            && |ks| == |vs| && Shaped(ks, c.dk) && Shaped(vs, c.dv)
            && forall h :: 0 <= h < |query| ==> HeadOk(exp, out[h], query[h], ks, vs, nQ, scale, c.dv)
  {
    var c := layer.cfg;
    EntriesMakeTiles(c, layer.State());
    BlocksRestore(c, layer.k, layer.v);
    var ts := CutTiles(c, layer.k, layer.v);
    ghost var ks, vs := TileKeys(ts) + key, TileValues(ts) + value;
    TilesShaped(ts, c.dk, c.dv);
    out := [];
    for h := 0 to |query|
      invariant |out| == h
      invariant forall i :: 0 <= i < h ==> HeadOk(exp, out[i], query[i], ks, vs, nQ, scale, c.dv)
    {
      var rows := AttendHead(exp, log, query[h], c.dk, ts, key, value, mask, nQ, scale, c.dv);
      out := out + [rows];
    }
  }

  /** Every query of one head. */
  method AttendHead(exp: real -> real, log: real -> real, qs: seq<Vec>, dk: nat, ts: seq<Tile>, key: seq<Vec>,
                    value: seq<Vec>, mask: Mask, nQ: nat, scale: real, dv: nat) returns (rows: seq<Vec>)
    requires ExpLog(exp, log) && TilesOk(ts, dk, dv) && |qs| == nQ && Shaped(qs, dk)
    requires nQ <= |key| == |value| && Shaped(key, dk) && Shaped(value, dv) && Causal(mask, nQ, |key|)
    ensures var ks, vs := TileKeys(ts) + key, TileValues(ts) + value;
            |ks| == |vs| && Shaped(ks, dk) && Shaped(vs, dv) && HeadOk(exp, rows, qs, ks, vs, nQ, scale, dv)
  {
    ghost var ks, vs := TileKeys(ts) + key, TileValues(ts) + value;
    TilesShaped(ts, dk, dv);
    rows := [];
    for t := 0 to nQ
      invariant |rows| == t
      invariant forall i :: 0 <= i < t ==> RowIsCausal(exp, rows[i], qs[i], ks, vs, nQ, i, scale, dv)
    {
      var o := AttendRow(exp, log, qs[t], ts, key, value, mask, nQ, t, scale, dv);
      rows := rows + [o];
    }
  }

  /** Every row of a head is causal attention over all the tokens `ks`, `vs`. */
  ghost predicate HeadOk(exp: real -> real, rows: seq<Vec>, qs: seq<Vec>, ks: seq<Vec>, vs: seq<Vec>, nQ: nat,
                         scale: real, dv: nat)
    requires ExpPositive(exp) && nQ <= |ks| == |vs| && |qs| == nQ && Shaped(vs, dv)
    requires forall t :: 0 <= t < nQ ==> Shaped(ks, |qs[t]|)
  {
    |rows| == nQ && forall t :: 0 <= t < nQ ==> RowIsCausal(exp, rows[t], qs[t], ks, vs, nQ, t, scale, dv)
  }

  /** `dense_tiled`, end to end: after any run of calls into a sixteen-bit tiled layer, the newest
      call's queries get exactly one causal softmax over every token ever fed. */
  method DenseTiledForward(exp: real -> real, log: real -> real, cfg: Config, run: seq<Call>, query: seq<seq<Vec>>,
                           mask: Mask, scale: real) returns (out: seq<seq<Vec>>)
    requires ExpLog(exp, log) && CallsFit(cfg, run) && cfg.bits == Sixteen && run != []
    requires QueriesOk(query, |run[|run| - 1].ks|, cfg.dk)
    requires CausalOver(mask, |run[|run| - 1].ks|, |AllKeys(run)|)
    ensures |out| == |query|
    ensures var ks, vs, nQ := AllKeys(run), AllValues(run), |run[|run| - 1].ks|;
            && nQ <= |ks| == |vs| && Shaped(ks, cfg.dk) && Shaped(vs, cfg.dv)
            && forall h :: 0 <= h < |query| ==> HeadOk(exp, out[h], query[h], ks, vs, nQ, scale, cfg.dv)
  {
    var layer := L.PrefillTiled(cfg, run);
    LazyEntries(cfg, run);
    LazyCanonical(cfg, run);
    HeldSixteen(cfg, layer.State(), AllKeys(run), AllValues(run), Stored(cfg, |AllKeys(run[..|run| - 1])|));
    out := Attend(exp, log, layer, query, |run[|run| - 1].ks|, layer.rk.value, layer.rv.value, mask, scale);
  }

  /** At sixteen bits the history followed by the window is every token, verbatim. */
  lemma HeldSixteen(c: Config, s: Store, ks: seq<Vec>, vs: seq<Vec>, q: nat)
    requires c.Ok() && c.bits == Sixteen && Holds(c, s, ks, vs, q)
    ensures RestoreKeys(c.bits, Flat(s.k)) + s.rk == ks
    ensures RestoreValues(c.bits, Flat(s.v)) + s.rv == vs
  {
    RestoredKeys(c, ks[..q]);
    RestoredValues(c, vs[..q]);
  }
}
