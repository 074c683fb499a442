/** The cache layer object whose `_kivi` fields the two `update` methods rewrite. */
module KiviLayer {
  import opened Options
  import opened Nums
  import opened Seqs
  import opened KiviCodes
  import opened KiviCache
  import opened KiviReadback

  class Layer {
    const cfg: Config
    var k: seq<seq<KUnit>>
    var v: seq<seq<VUnit>>
    var rk: Option<seq<Vec>>
    var rv: Option<seq<Vec>>
    var n: nat

    /** The store this object holds; an unset window is an empty one. */
    ghost function State(): Store
      reads this
    {
      Store(k, v, if rk.Some? then rk.value else [], if rv.Some? then rv.value else [], n)
    }

    ghost predicate Valid()
      reads this
    {
      Fits(cfg, State()) && (rk.Some? <==> rv.Some?)
    }

    constructor (cfg: Config)
      requires cfg.Ok()
      ensures Valid() && this.cfg == cfg && State() == EMPTY
    {
      this.cfg := cfg;
      k, v, rk, rv, n := [], [], None, None, 0;
    }

    /** The eager `update`: joins the window with the new tokens, moves whole old groups of it
        into the history, and returns the dequantized history followed by the window. */
    method Update(ks: seq<Vec>, vs: seq<Vec>) returns (keys: seq<Vec>, values: seq<Vec>)
      requires Valid() && ChunkFits(cfg, ks, vs) && FourBit(cfg).Ok()
      modifies this
      ensures Valid() && State() == EagerStep(FourBit(cfg), old(State()), ks, vs)
      ensures keys == RestoreKeys(Low(Four), Flat(State().k)) + State().rk
      ensures values == RestoreValues(Low(Four), Flat(State().v)) + State().rv
    {
      Absorb(ks, vs);
      var hk, hv := ReadHistory();
      keys, values := hk + rk.value, hv + rv.value;
    }

    /** The state change of the eager `update`. */
    method Absorb(ks: seq<Vec>, vs: seq<Vec>)
      requires Valid() && ChunkFits(cfg, ks, vs) && FourBit(cfg).Ok()
      modifies this
      ensures Valid() && rk.Some? && State() == EagerStep(FourBit(cfg), old(State()), ks, vs)
    {
      var wk := if rk.None? then ks else rk.value + ks;
      var wv := if rv.None? then vs else rv.value + vs;
      ghost var joined := Appended(old(State()), ks, vs);
      assert wk == joined.rk && wv == joined.rv;
      var nQ := QuantCount(|wk|, cfg.residual, cfg.group);
      QuantizedFields(FourBit(cfg), joined, nQ);
      if nQ > 0 {
        k := k + [EncodeKeys(FourBit(cfg), wk[..nQ])];
        v := v + [EncodeValues(FourBit(cfg), wv[..nQ])];
        wk, wv := wk[nQ..], wv[nQ..];
      }
      rk, rv := Some(wk), Some(wv);
      n := n + |ks|;
      assert State() == QuantizeInto(FourBit(cfg), joined, 0);
    }

    /** Dequantizes the history entry by entry, in order. */
    method ReadHistory() returns (keys: seq<Vec>, values: seq<Vec>)
      ensures keys == RestoreKeys(Low(Four), Flat(k))
      ensures values == RestoreValues(Low(Four), Flat(v))
    {
      keys, values := [], [];
      for i := 0 to |k|
        invariant keys == RestoreKeys(Low(Four), Flat(k[..i]))
      {
        FlatSnoc(k[..i], k[i]);
        assert k[..i + 1] == k[..i] + [k[i]];
        RestoreKeysAppend(Low(Four), Flat(k[..i]), k[i]);
        keys := keys + RestoreKeys(Low(Four), k[i]);
      }
      for i := 0 to |v|
        invariant values == RestoreValues(Low(Four), Flat(v[..i]))
      {
        FlatSnoc(v[..i], v[i]);
        assert v[..i + 1] == v[..i] + [v[i]];
        values := values + RestoreValues(Low(Four), v[i]);
      }
      assert k[..|k|] == k && v[..|v|] == v;
    }

    /** Moves whole groups older than the last `max(R, keepTail)` tokens out of the window. */
    method QuantizeWindow(keepTail: nat)
      requires Valid() && rk.Some?
      modifies this
      ensures Valid() && rk.Some? && State() == QuantizeInto(cfg, old(State()), keepTail)
    {
      var wk, wv := rk.value, rv.value;
      var hold := if cfg.residual < keepTail then keepTail else cfg.residual;
      var nQ := QuantCount(|wk|, hold, cfg.group);
      if nQ > 0 {
        k := k + [EncodeKeys(cfg, wk[..nQ])];
        v := v + [EncodeValues(cfg, wv[..nQ])];
        rk, rv := Some(wk[nQ..]), Some(wv[nQ..]);
      }
    }

    /** The tiled `update`: quantizes the previous forward's tokens, then appends the new ones
        and returns only the sixteen-bit window. */
    method TiledUpdate(ks: seq<Vec>, vs: seq<Vec>) returns (keys: seq<Vec>, values: seq<Vec>)
      requires Valid() && ChunkFits(cfg, ks, vs)
      modifies this
      ensures Valid() && rk.Some? && State() == LazyStep(cfg, old(State()), ks, vs)
      ensures keys == State().rk && values == State().rv
    {
      if rk.Some? {
        QuantizeWindow(0);
      }
      rk := Some(if rk.None? then ks else rk.value + ks);
      rv := Some(if rv.None? then vs else rv.value + vs);
      n := n + |ks|;
      assert State().rk == QuantizeInto(cfg, old(State()), 0).rk + ks;
      assert State().rv == QuantizeInto(cfg, old(State()), 0).rv + vs;
      return rk.value, rv.value;
    }
  }

  /** The fields after quantizing, one by one. */
  lemma QuantizedFields(c: Config, s: Store, q: nat)
    requires Fits(c, s) && q == QuantCount(|s.rk|, c.residual, c.group)
    ensures var r := QuantizeInto(c, s, 0);
            && r.n == s.n
            && r.k == (if q > 0 then s.k + [EncodeKeys(c, s.rk[..q])] else s.k)
            && r.v == (if q > 0 then s.v + [EncodeValues(c, s.rv[..q])] else s.v)
            && r.rk == s.rk[q..] && r.rv == s.rv[q..]
  {}

  /** Every token reads back as `ReadsBack` says. */
  ghost predicate AllReadBack(c: Config, s: Store, ks: seq<Vec>, vs: seq<Vec>, q: nat)
    requires c.Ok() && c.bits.Low? && ChunkFits(c, ks, vs) && q % c.group == 0 && q <= |ks|
  {
    forall i :: 0 <= i < |ks| ==> ReadsBack(c, s, ks, vs, q, i)
  }

  lemma HoldsAllReadBack(c: Config, s: Store, ks: seq<Vec>, vs: seq<Vec>, q: nat)
    requires c.Ok() && c.bits.Low? && Holds(c, s, ks, vs, q)
    ensures AllReadBack(c, s, ks, vs, q)
  {
    forall i | 0 <= i < |ks| ensures ReadsBack(c, s, ks, vs, q, i) { HoldsReadsBack(c, s, ks, vs, q, i); }
  }

  /** Chunk-wise prefill of an eager layer: whatever the calls, the layer ends up holding exactly
      the tokens they delivered, split at `Stored(n)`, and whatever width was asked for they read back to four bits. */
  method PrefillEager(cfg: Config, run: seq<Call>) returns (layer: Layer)
    requires CallsFit(cfg, run) && FourBit(cfg).Ok()
    ensures fresh(layer) && layer.Valid() && layer.cfg == cfg
    ensures Holds(FourBit(cfg), layer.State(), AllKeys(run), AllValues(run), Stored(cfg, |AllKeys(run)|))
    ensures AllReadBack(cfg.(bits := Low(Four)), layer.State(), AllKeys(run), AllValues(run),
                        Stored(cfg, |AllKeys(run)|))
  {
    layer := new Layer(cfg);
    for i := 0 to |run|
      invariant layer.Valid() && layer.cfg == cfg && fresh(layer)
      invariant layer.State() == EagerRun(FourBit(cfg), run[..i])
    {
      assert run[..i + 1][..i] == run[..i];
      var _, _ := layer.Update(run[i].ks, run[i].vs);
    }
    assert run[..|run|] == run;
    EagerCanonical(FourBit(cfg), run);
    HoldsAllReadBack(FourBit(cfg), layer.State(), AllKeys(run), AllValues(run), Stored(cfg, |AllKeys(run)|));
  }

  /** Chunk-wise prefill of a tiled layer: one pending quantization away from the eager store. */
  method PrefillTiled(cfg: Config, run: seq<Call>) returns (layer: Layer)
    requires CallsFit(cfg, run)
    ensures fresh(layer) && layer.Valid() && layer.cfg == cfg
    ensures layer.State() == LazyRun(cfg, run)
    ensures QuantizeInto(cfg, layer.State(), 0) == EagerRun(cfg, run)
    ensures run != [] ==>
              Holds(cfg, layer.State(), AllKeys(run), AllValues(run), Stored(cfg, |AllKeys(run[..|run| - 1])|))
    ensures run != [] && cfg.bits.Low? ==>
              AllReadBack(cfg, layer.State(), AllKeys(run), AllValues(run), Stored(cfg, |AllKeys(run[..|run| - 1])|))
  {
    layer := new Layer(cfg);
    for i := 0 to |run|
      invariant layer.Valid() && layer.cfg == cfg && fresh(layer)
      invariant layer.State() == LazyRun(cfg, run[..i])
    {
      assert run[..i + 1][..i] == run[..i];
      var _, _ := layer.TiledUpdate(run[i].ks, run[i].vs);
    }
    assert run[..|run|] == run;
    LazySimulatesEager(cfg, run);
    if run != [] {
      LazyCanonical(cfg, run);
      var ks, vs, q := AllKeys(run), AllValues(run), Stored(cfg, |AllKeys(run[..|run| - 1])|);
      if cfg.bits.Low? { HoldsAllReadBack(cfg, layer.State(), ks, vs, q); }
    }
  }
}
