/** The chunk-wise KIVI cache layer: the eager layer, which quantizes inside `update`, and the
    tiled layer, which quantizes a forward's tokens at the start of the next one. One attention
    head is modelled; batch and head axes are independent copies. */
module KiviCache {
  import opened Nums
  import opened Seqs
  import opened KiviCodes

  /** Storage width of the history; `Sixteen` keeps the tensors unquantized. */
  datatype Bits = Sixteen | Low(width: Width)

  datatype Config = Config(group: nat, residual: nat, bits: Bits, dk: nat, dv: nat) {
    predicate Ok() {
      && group > 0 && dk > 0 && dv > 0
      && (bits.Low? ==> dk % bits.width.PerByte() == 0 && dv % bits.width.PerByte() == 0)
    }
  }

  /** The eager layer packs four bits whatever width it is asked for. */
  function FourBit(c: Config): Config {
    c.(bits := Low(Four))
  }

  // ---- encoding whole runs of tokens ----

  /** Keys stored: one unit per group of `group` tokens, or one per token at sixteen bits. Only
      whole groups are encoded. */
  function EncodeKeys(c: Config, ks: seq<Vec>): (u: seq<KUnit>)
    requires c.Ok() && Shaped(ks, c.dk)
    decreases |ks|
  {
    if |ks| < c.group then []
    else EncodeGroup(c, ks[..c.group]) + EncodeKeys(c, ks[c.group..])
  }

  function EncodeGroup(c: Config, g: seq<Vec>): (u: seq<KUnit>)
    requires c.Ok() && |g| == c.group && Shaped(g, c.dk)
  {
    if c.bits.Low? then [QuantKeyGroup(c.bits.width, g, c.dk)] else Halves(g)
  }

  function Halves(g: seq<Vec>): (r: seq<KUnit>)
    ensures |r| == |g|
  {
    seq(|g|, t requires 0 <= t < |g| => Half(g[t]))
  }

  function EncodeValues(c: Config, vs: seq<Vec>): (u: seq<VUnit>)
    requires c.Ok() && Shaped(vs, c.dv)
    ensures |u| == |vs|
  {
    seq(|vs|, t requires 0 <= t < |vs| =>
      if c.bits.Low? then QuantValue(c.bits.width, vs[t]) else Plain(vs[t]))
  }

  lemma {:induction false} EncodeKeysAppend(c: Config, a: seq<Vec>, b: seq<Vec>)
    requires c.Ok() && Shaped(a, c.dk) && Shaped(b, c.dk) && |a| % c.group == 0
    ensures EncodeKeys(c, a + b) == EncodeKeys(c, a) + EncodeKeys(c, b)
    decreases |a|
  {
    if a == [] {
      assert a + b == b;
    } else {
      DivLower(|a|, c.group);
      assert (a + b)[..c.group] == a[..c.group];
      assert (a + b)[c.group..] == a[c.group..] + b;
      EncodeKeysAppend(c, a[c.group..], b);
    }
  }

  lemma EncodeValuesAppend(c: Config, a: seq<Vec>, b: seq<Vec>)
    requires c.Ok() && Shaped(a, c.dv) && Shaped(b, c.dv)
    ensures EncodeValues(c, a + b) == EncodeValues(c, a) + EncodeValues(c, b)
  {}

  // ---- reading the history back ----

  function WidthOf(b: Bits): Width {
    if b.Low? then b.width else Four
  }

  function KeyBlocks(b: Bits, us: seq<KUnit>): (r: seq<seq<Vec>>)
    ensures |r| == |us|
  {
    seq(|us|, i requires 0 <= i < |us| => ReadKeys(WidthOf(b), us[i]))
  }

  function RestoreKeys(b: Bits, us: seq<KUnit>): (ks: seq<Vec>) {
    Flat(KeyBlocks(b, us))
  }

  function RestoreValues(b: Bits, us: seq<VUnit>): (vs: seq<Vec>)
    ensures |vs| == |us|
  {
    seq(|us|, i requires 0 <= i < |us| => ReadValue(WidthOf(b), us[i]))
  }

  lemma RestoreKeysAppend(b: Bits, x: seq<KUnit>, y: seq<KUnit>)
    ensures RestoreKeys(b, x + y) == RestoreKeys(b, x) + RestoreKeys(b, y)
  {
    KeyBlocksAppend(b, x, y);
    FlatAppend(KeyBlocks(b, x), KeyBlocks(b, y));
  }

  lemma KeyBlocksAppend(b: Bits, x: seq<KUnit>, y: seq<KUnit>)
    ensures KeyBlocks(b, x + y) == KeyBlocks(b, x) + KeyBlocks(b, y)
  {}

  lemma RestoreValuesAppend(b: Bits, x: seq<VUnit>, y: seq<VUnit>)
    ensures RestoreValues(b, x + y) == RestoreValues(b, x) + RestoreValues(b, y)
  {}

  // ---- the layer's state as a value, and its steps ----

  /** `k`, `v`: appended entries, each a batch of units; `rk`, `rv`: the sixteen-bit window. */
  datatype Store = Store(k: seq<seq<KUnit>>, v: seq<seq<VUnit>>, rk: seq<Vec>, rv: seq<Vec>, n: nat)

  const EMPTY := Store([], [], [], [], 0)

  /** How many tokens of a window of `nRes` leave it: whole groups older than the last `hold`. */
  function QuantCount(nRes: nat, hold: nat, g: nat): (q: nat)
    requires g > 0
    ensures q <= nRes && q % g == 0
    ensures nRes > hold ==> q <= nRes - hold < q + g
    ensures nRes <= hold ==> q == 0
  {
    if nRes > hold then
      ModMultiple((nRes - hold) / g, g);
      (nRes - hold) / g * g
    else 0
  }

  ghost predicate Fits(c: Config, s: Store) {
    c.Ok() && |s.rk| == |s.rv| && Shaped(s.rk, c.dk) && Shaped(s.rv, c.dv)
  }

  function QuantizeInto(c: Config, s: Store, keepTail: nat): (r: Store)
    requires Fits(c, s)
    ensures Fits(c, r) && r.n == s.n
  {
    var hold := if c.residual < keepTail then keepTail else c.residual;
    var q := QuantCount(|s.rk|, hold, c.group);
    if q > 0 then
      Store(s.k + [EncodeKeys(c, s.rk[..q])], s.v + [EncodeValues(c, s.rv[..q])], s.rk[q..], s.rv[q..], s.n)
    else s
  }

  /** What a quantization moves: the oldest `m` tokens of the window, whole groups, as many as can go while the last
      `residual` and the last `keepTail` tokens stay. */
  ghost predicate Moves(c: Config, s: Store, keepTail: nat, r: Store, m: nat)
    requires Fits(c, s)
  {
    && m <= |s.rk| && m % c.group == 0 && r.rk == s.rk[m..] && r.rv == s.rv[m..] && r.n == s.n
    && Flat(r.k) == Flat(s.k) + EncodeKeys(c, s.rk[..m]) && Flat(r.v) == Flat(s.v) + EncodeValues(c, s.rv[..m])
    && (m > 0 ==> |r.rk| >= c.residual && |r.rk| >= keepTail)
    && (|r.rk| < c.residual + c.group || |r.rk| < keepTail + c.group)
  }

  lemma QuantizeMoves(c: Config, s: Store, keepTail: nat) returns (m: nat)
    requires Fits(c, s)
    ensures Moves(c, s, keepTail, QuantizeInto(c, s, keepTail), m)
  {
    m := QuantCount(|s.rk|, if c.residual < keepTail then keepTail else c.residual, c.group);
    if m > 0 {
      FlatSnoc(s.k, EncodeKeys(c, s.rk[..m]));
      FlatSnoc(s.v, EncodeValues(c, s.rv[..m]));
    } else {
      assert s.rk[..0] == [] && s.rv[..0] == [] && EncodeKeys(c, []) == [];
    }
  }

  ghost predicate ChunkFits(c: Config, ks: seq<Vec>, vs: seq<Vec>) {
    |ks| == |vs| && Shaped(ks, c.dk) && Shaped(vs, c.dv)
  }

  function Appended(s: Store, ks: seq<Vec>, vs: seq<Vec>): Store {
    s.(rk := s.rk + ks, rv := s.rv + vs, n := s.n + |ks|)
  }

  function EagerStep(c: Config, s: Store, ks: seq<Vec>, vs: seq<Vec>): (r: Store)
    requires Fits(c, s) && ChunkFits(c, ks, vs)
    ensures Fits(c, r)
  {
    QuantizeInto(c, Appended(s, ks, vs), 0)
  }

  function LazyStep(c: Config, s: Store, ks: seq<Vec>, vs: seq<Vec>): (r: Store)
    requires Fits(c, s) && ChunkFits(c, ks, vs)
    ensures Fits(c, r)
  {
    Appended(QuantizeInto(c, s, 0), ks, vs)
  }

  /** A run: the key and value tensors handed to successive `update` calls. */
  datatype Call = Call(ks: seq<Vec>, vs: seq<Vec>)

  ghost predicate CallsFit(c: Config, run: seq<Call>) {
    c.Ok() && forall i :: 0 <= i < |run| ==> ChunkFits(c, run[i].ks, run[i].vs)
  }

  function EagerRun(c: Config, run: seq<Call>): (s: Store)
    requires CallsFit(c, run)
    ensures Fits(c, s)
  {
    if run == [] then EMPTY
    else
      var p := |run| - 1;
      EagerStep(c, EagerRun(c, run[..p]), run[p].ks, run[p].vs)
  }

  function LazyRun(c: Config, run: seq<Call>): (s: Store)
    requires CallsFit(c, run)
    ensures Fits(c, s)
  {
    if run == [] then EMPTY
    else
      var p := |run| - 1;
      LazyStep(c, LazyRun(c, run[..p]), run[p].ks, run[p].vs)
  }

  function AllKeys(run: seq<Call>): (ks: seq<Vec>) {
    if run == [] then [] else AllKeys(run[..|run| - 1]) + run[|run| - 1].ks
  }

  function AllValues(run: seq<Call>): (vs: seq<Vec>) {
    if run == [] then [] else AllValues(run[..|run| - 1]) + run[|run| - 1].vs
  }

  // ---- what the run leaves, as a function of the tokens alone ----

  /** Number of tokens in the history after `n` tokens: `max(0, ((n - R) div G) * G)`. */
  function Stored(c: Config, n: nat): (q: nat)
    requires c.Ok()
  {
    QuantCount(n, c.residual, c.group)
  }

  /** The store holds exactly `ks`, `vs`: the first `q` tokens encoded, the rest verbatim. */
  ghost predicate Holds(c: Config, s: Store, ks: seq<Vec>, vs: seq<Vec>, q: nat)
    requires c.Ok()
  {
    && ChunkFits(c, ks, vs) && q <= |ks| && q % c.group == 0 && s.n == |ks|
    && Flat(s.k) == EncodeKeys(c, ks[..q]) && Flat(s.v) == EncodeValues(c, vs[..q])
    && s.rk == ks[q..] && s.rv == vs[q..]
  }

  lemma HoldsAppend(c: Config, s: Store, ks: seq<Vec>, vs: seq<Vec>, q: nat, ks': seq<Vec>, vs': seq<Vec>)
    requires c.Ok() && Holds(c, s, ks, vs, q) && ChunkFits(c, ks', vs')
    ensures Holds(c, Appended(s, ks', vs'), ks + ks', vs + vs', q)
  {
    assert (ks + ks')[..q] == ks[..q] && (vs + vs')[..q] == vs[..q];
    assert (ks + ks')[q..] == ks[q..] + ks' && (vs + vs')[q..] == vs[q..] + vs';
  }

  lemma HoldsQuantize(c: Config, s: Store, ks: seq<Vec>, vs: seq<Vec>, q: nat, p: nat)
    requires Fits(c, s) && Holds(c, s, ks, vs, q) && p == q + QuantCount(|ks| - q, c.residual, c.group)
    ensures Holds(c, QuantizeInto(c, s, 0), ks, vs, p)
  {
    if p > q {
      ModSum(q, p - q, c.group);
      FlatKeys(c, s.k, ks, q, p - q);
      FlatValues(c, s.v, vs, q, p - q);
      QuantizeIs(c, s, ks, vs, q, p);
    }
  }

  lemma QuantizeIs(c: Config, s: Store, ks: seq<Vec>, vs: seq<Vec>, q: nat, p: nat)
    requires c.Ok() && ChunkFits(c, ks, vs) && q < p <= |ks| && s.rk == ks[q..] && s.rv == vs[q..]
    requires p == q + QuantCount(|ks| - q, c.residual, c.group)
    ensures QuantizeInto(c, s, 0)
         == Store(s.k + [EncodeKeys(c, ks[q..p])], s.v + [EncodeValues(c, vs[q..p])], ks[p..], vs[p..], s.n)
  {
    TailCut(ks, q, p - q);
    TailCut(vs, q, p - q);
  }

  lemma TailCut<T>(s: seq<T>, q: nat, m: nat)
    requires q + m <= |s|
    ensures s[q..][..m] == s[q..q + m] && s[q..][m..] == s[q + m..]
  {}

  lemma FlatKeys(c: Config, k: seq<seq<KUnit>>, ks: seq<Vec>, q: nat, m: nat)
    requires c.Ok() && Shaped(ks, c.dk) && q + m <= |ks| && q % c.group == 0 && Flat(k) == EncodeKeys(c, ks[..q])
    ensures Flat(k + [EncodeKeys(c, ks[q..q + m])]) == EncodeKeys(c, ks[..q + m])
  {
    assert ks[..q + m] == ks[..q] + ks[q..q + m];
    EncodeKeysAppend(c, ks[..q], ks[q..q + m]);
    FlatSnoc(k, EncodeKeys(c, ks[q..q + m]));
  }

  lemma FlatValues(c: Config, v: seq<seq<VUnit>>, vs: seq<Vec>, q: nat, m: nat)
    requires c.Ok() && Shaped(vs, c.dv) && q + m <= |vs| && Flat(v) == EncodeValues(c, vs[..q])
    ensures Flat(v + [EncodeValues(c, vs[q..q + m])]) == EncodeValues(c, vs[..q + m])
  {
    assert vs[..q + m] == vs[..q] + vs[q..q + m];
    EncodeValuesAppend(c, vs[..q], vs[q..q + m]);
    FlatSnoc(v, EncodeValues(c, vs[q..q + m]));
  }

  lemma StoredGrows(c: Config, n: nat, m: nat)
    requires c.Ok() && n <= m
    ensures Stored(c, n) <= Stored(c, m)
    ensures Stored(c, n) + QuantCount(m - Stored(c, n), c.residual, c.group) == Stored(c, m)
  {
    var g, r := c.group, c.residual;
    var q, t := Stored(c, n), Stored(c, m);
    var u := q + QuantCount(m - q, r, g);
    ModSum(q, u - q, g);
    if m > r && (m - q > r || q > 0) {
      MultiplesApart(u, t, g);
    }
  }

  lemma EagerStepHolds(c: Config, s: Store, ks: seq<Vec>, vs: seq<Vec>, call: Call)
    requires Fits(c, s) && Holds(c, s, ks, vs, Stored(c, |ks|)) && ChunkFits(c, call.ks, call.vs)
    ensures Holds(c, EagerStep(c, s, call.ks, call.vs), ks + call.ks, vs + call.vs, Stored(c, |ks + call.ks|))
  {
    var q, a, m := Stored(c, |ks|), Appended(s, call.ks, call.vs), |ks + call.ks|;
    HoldsAppend(c, s, ks, vs, q, call.ks, call.vs);
    StoredGrows(c, |ks|, m);
    HoldsQuantize(c, a, ks + call.ks, vs + call.vs, q, Stored(c, m));
  }

  /** Chunking independence of the eager cache: after any run of `update` calls the history, the
      window and the token count are functions of the concatenated tokens alone. */
  lemma {:induction false} EagerCanonical(c: Config, run: seq<Call>)
    requires CallsFit(c, run)
    ensures Holds(c, EagerRun(c, run), AllKeys(run), AllValues(run), Stored(c, |AllKeys(run)|))
  {
    if run != [] {
      var p := |run| - 1;
      EagerCanonical(c, run[..p]);
      EagerStepHolds(c, EagerRun(c, run[..p]), AllKeys(run[..p]), AllValues(run[..p]), run[p]);
    }
  }

  /** Two ways of cutting the same tokens into `update` calls leave the same codes, scales, window
      and count; once `n >= R` the window holds between R and R + G - 1 tokens. */
  lemma SameTokensSameCache(c: Config, one: seq<Call>, two: seq<Call>)
    requires CallsFit(c, one) && CallsFit(c, two)
    requires AllKeys(one) == AllKeys(two) && AllValues(one) == AllValues(two)
    ensures var a, b := EagerRun(c, one), EagerRun(c, two);
            && Flat(a.k) == Flat(b.k) && Flat(a.v) == Flat(b.v)
            && a.rk == b.rk && a.rv == b.rv && a.n == b.n
            && |Flat(a.v)| + |a.rk| == a.n
            && (a.n >= c.residual ==> c.residual <= |a.rk| < c.residual + c.group)
            && (a.n < c.residual ==> a.k == [] && |a.rk| == a.n)
  {
    EagerCanonical(c, one);
    EagerCanonical(c, two);
    if EagerRun(c, one).n < c.residual {
      EagerBelowResidual(c, one);
    }
  }

  lemma {:induction false} EagerBelowResidual(c: Config, run: seq<Call>)
    requires CallsFit(c, run) && |AllKeys(run)| < c.residual
    ensures EagerRun(c, run).k == [] && |EagerRun(c, run).rk| == |AllKeys(run)|
  {
    if run != [] {
      EagerBelowResidual(c, run[..|run| - 1]);
    }
  }

  /** The tiled layer simulates the eager one: quantizing what is pending in it gives exactly the
      eager store, entry by entry, after every run. */
  lemma {:induction false} LazySimulatesEager(c: Config, run: seq<Call>)
    requires CallsFit(c, run)
    ensures QuantizeInto(c, LazyRun(c, run), 0) == EagerRun(c, run)
  {
    if run != [] {
      LazySimulatesEager(c, run[..|run| - 1]);
    }
  }

  /** The tiled layer's history is the eager history before the newest call, its window ends with
      that call's tokens verbatim, and the window is shorter than R + G + the new tokens. */
  lemma LazyCanonical(c: Config, run: seq<Call>)
    requires CallsFit(c, run) && run != []
    ensures var p := |run| - 1;
            var s, before := LazyRun(c, run), |AllKeys(run[..p])|;
            && Holds(c, s, AllKeys(run), AllValues(run), Stored(c, before))
            && |s.rk| >= |run[p].ks| && s.rk[|s.rk| - |run[p].ks|..] == run[p].ks
            && |s.rk| < c.residual + c.group + |run[p].ks|
  {
    var p := |run| - 1;
    LazySimulatesEager(c, run[..p]);
    EagerCanonical(c, run[..p]);
    var ks, vs := AllKeys(run[..p]), AllValues(run[..p]);
    HoldsAppend(c, EagerRun(c, run[..p]), ks, vs, Stored(c, |ks|), run[p].ks, run[p].vs);
  }
}
