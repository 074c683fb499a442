/** The chunked H2O prefill of a whole cache: after every chunk its attention entries are matched to the layers that
    hold keys and values, and each of those layers is scored and pruned on its own. */
module H2OCache {
  import opened Options
  import opened Nums
  import opened Selection
  import opened Entries
  import opened H2O
  import opened H2OPrefill
  import A = Alignment

  /** One forward over a chunk: the attention entries it reports, `atts[e][q][t]`. */
  datatype Pass = Pass(size: nat, atts: seq<Option<seq<seq<Vec>>>>)

  datatype CacheOutcome =
    | BadCall
    | NothingRead
    | NoAttention
    | Unaligned
    | BadAttention
    | NoKvLayer
    | Pruned(layers: seq<seq<Head>>, longest: nat)

  /** How many key/value heads each layer that holds any has: at least one. */
  predicate HeadsOk(nh: seq<nat>) {
    forall i :: 0 <= i < |nh| ==> nh[i] > 0
  }

  /** What the `i`-th layer holding keys and values sees of the chunks: the `i`-th entry present in each. */
  function Forwards(ps: seq<Pass>, i: nat): (fs: seq<Forward>)
    ensures |fs| == |ps|
    ensures forall k :: 0 <= k < |ps| && i < |A.Present(ps[k].atts)| ==>
              fs[k] == Forward(ps[k].size, A.Present(ps[k].atts)[i])
    ensures forall k :: 0 <= k < |ps| ==> fs[k].size == ps[k].size
  {
    seq(|ps|, k requires 0 <= k < |ps| =>
      Forward(ps[k].size, if i < |A.Present(ps[k].atts)| then A.Present(ps[k].atts)[i] else []))
  }

  /** Chunk `k` is taken: there is attention, one entry for every layer with keys and values, and it fits each. */
  ghost predicate PassOk(ps: seq<Pass>, k: nat, budget: nat, nh: seq<nat>)
    requires k < |ps| && HeadsOk(nh)
  {
    && ps[k].atts != [] && |A.Present(ps[k].atts)| == |nh|
    && AllFit(ps, k, |nh|, budget, nh)
  }

  /** Every layer holds what its own forwards so far leave. */
  ghost predicate AllReached(layers: seq<seq<Head>>, runs: seq<seq<seq<Chunk>>>, ps: seq<Pass>, k: nat, nh: seq<nat>,
                             p: Policy, topk: TopK)
    requires k <= |ps|
  {
    && |layers| == |runs| <= |nh|
    && forall i :: 0 <= i < |layers| ==> LayerReached(layers[i], runs[i], Forwards(ps, i), k, nh[i], p, topk)
  }

  ghost predicate LayerReached(heads: seq<Head>, runs: seq<seq<Chunk>>, fs: seq<Forward>, k: nat, nHeads: nat,
                               p: Policy, topk: TopK) {
    k <= |fs| && |heads| == nHeads && Reached(heads, runs, fs[..k], p, topk)
  }

  /** Tokens fed by the first `k` chunks, whatever the layer. */
  function FedBy(ps: seq<Pass>): nat {
    if ps == [] then 0 else FedBy(ps[..|ps| - 1]) + ps[|ps| - 1].size
  }

  lemma {:induction false} FedAlike(ps: seq<Pass>, i: nat, k: nat)
    requires k <= |ps|
    ensures Fed(Forwards(ps, i)[..k]) == FedBy(ps[..k])
  {
    if k > 0 {
      FedAlike(ps, i, k - 1);
      assert Forwards(ps, i)[..k][..k - 1] == Forwards(ps, i)[..k - 1] && ps[..k][..k - 1] == ps[..k - 1];
    }
  }

  lemma {:induction false} LongestAlike(ps: seq<Pass>, i: nat, j: nat, budget: nat, k: nat)
    requires k <= |ps|
    ensures Longest(Forwards(ps, i)[..k], budget) == Longest(Forwards(ps, j)[..k], budget)
  {
    if k > 0 {
      LongestAlike(ps, i, j, budget, k - 1);
      FedAlike(ps, i, k - 1);
      FedAlike(ps, j, k - 1);
      LongestNext(Forwards(ps, i), Forwards(ps, j), k - 1, budget);
    }
  }

  lemma LongestNext(a: seq<Forward>, b: seq<Forward>, k: nat, budget: nat)
    requires k < |a| && k < |b| && a[k].size == b[k].size
    requires Fed(a[..k]) == Fed(b[..k]) && Longest(a[..k], budget) == Longest(b[..k], budget)
    ensures Longest(a[..k + 1], budget) == Longest(b[..k + 1], budget)
  {
    FedSnoc(a, k, budget);
    FedSnoc(b, k, budget);
  }

  /** One chunk over all layers; stops at the first whose attention does not fit. */
  method OnePass(layers: seq<seq<Head>>, ghost runs: seq<seq<seq<Chunk>>>, ps: seq<Pass>, k: nat, n: nat,
                 ghost nh: seq<nat>, p: Policy, topk: TopK)
    returns (ok: bool, after: seq<seq<Head>>, ghost next: seq<seq<seq<Chunk>>>, s: nat)
    requires k < |ps| && n == FedBy(ps[..k]) && HeadsOk(nh) && p.Ok() && AllReached(layers, runs, ps, k, nh, p, topk)
    ensures ok <==> AllFit(ps, k, |layers|, p.budget, nh)
    ensures ok ==> |after| == |layers| && AllReached(after, next, ps, k + 1, nh, p, topk)
    ensures ok && layers != [] ==> s == LengthAt(Forwards(ps, 0), k, p.budget)
  {
    after, next, s := [], [], 0;
    for i := 0 to |layers|
      invariant |after| == i && AllFit(ps, k, i, p.budget, nh)
      invariant AllReached(after, next, ps, k + 1, nh, p, topk)
      invariant i > 0 ==> s == LengthAt(Forwards(ps, 0), k, p.budget)
    {
      LengthAlike(ps, i, k, p.budget);
      assert LayerReached(layers[i], runs[i], Forwards(ps, i), k, nh[i], p, topk);
      var aligned, grouped, len, heads, chunks := OneForward(layers[i], runs[i], Forwards(ps, i), k, n, p, topk);
      if !aligned || !grouped {
        assert !ForwardOk(Forwards(ps, i), k, p.budget, nh[i]);
        return false, after, next, s;
      }
      FitSnoc(ps, k, i, p.budget, nh);
      ReachedSnoc(after, next, heads, chunks, ps, k + 1, nh, p, topk);
      after, next, s := after + [heads], next + [chunks], len;
    }
    ok := true;
  }

  ghost predicate AllFit(ps: seq<Pass>, k: nat, m: nat, budget: nat, nh: seq<nat>)
    requires k < |ps| && m <= |nh| && HeadsOk(nh)
  {
    forall i :: 0 <= i < m ==> ForwardOk(Forwards(ps, i), k, budget, nh[i])
  }

  lemma FitSnoc(ps: seq<Pass>, k: nat, i: nat, budget: nat, nh: seq<nat>)
    requires k < |ps| && i < |nh| && HeadsOk(nh)
    requires AllFit(ps, k, i, budget, nh) && ForwardOk(Forwards(ps, i), k, budget, nh[i])
    ensures AllFit(ps, k, i + 1, budget, nh)
  {}

  lemma LengthAlike(ps: seq<Pass>, i: nat, k: nat, budget: nat)
    requires k < |ps|
    ensures Fed(Forwards(ps, i)[..k]) == FedBy(ps[..k])
    ensures LengthAt(Forwards(ps, i), k, budget) == LengthAt(Forwards(ps, 0), k, budget)
  {
    FedAlike(ps, i, k);
    FedAlike(ps, 0, k);
  }

  lemma ReachedSnoc(layers: seq<seq<Head>>, runs: seq<seq<seq<Chunk>>>, heads: seq<Head>, chunks: seq<seq<Chunk>>,
                    ps: seq<Pass>, k: nat, nh: seq<nat>, p: Policy, topk: TopK)
    requires k <= |ps| && AllReached(layers, runs, ps, k, nh, p, topk) && |layers| < |nh|
    requires LayerReached(heads, chunks, Forwards(ps, |layers|), k, nh[|layers|], p, topk)
    ensures AllReached(layers + [heads], runs + [chunks], ps, k, nh, p, topk)
  {}

  /** The heads of every layer before the first chunk. */
  function Fresh(nh: seq<nat>): (layers: seq<seq<Head>>) {
    seq(|nh|, i requires 0 <= i < |nh| => seq(nh[i], _ => FRESH))
  }

  lemma FreshLayers(ps: seq<Pass>, nh: seq<nat>, p: Policy, topk: TopK) returns (runs: seq<seq<seq<Chunk>>>)
    requires p.Ok() && TopKLaw(topk)
    ensures AllReached(Fresh(nh), runs, ps, 0, nh, p, topk)
  {
    runs := seq(|nh|, i requires 0 <= i < |nh| => seq(nh[i], _ => []));
    forall i | 0 <= i < |nh| ensures LayerReached(Fresh(nh)[i], runs[i], Forwards(ps, i), 0, nh[i], p, topk) {
      FreshHeads(nh[i], p, topk);
      assert Forwards(ps, i)[..0] == [];
    }
  }

  /** The whole prefill: it completes exactly when the arguments are sane, there is a prompt, some layer holds keys and
      values, and every chunk's attention is there, matches those layers in number and fits each of them; every layer's
      heads then hold what their own run leaves, and the longest cache seen is that of any layer. */
  method PrefillCache(kv: seq<bool>, ps: seq<Pass>, budget: int, recency: int, nh: seq<nat>, topk: TopK)
    returns (r: CacheOutcome, ghost runs: seq<seq<seq<Chunk>>>)
    requires |nh| == |A.KvLayers(kv)| && HeadsOk(nh) && TopKLaw(topk)
    ensures r.BadCall? <==> !(0 <= recency < budget)
    ensures r.NothingRead? <==> 0 <= recency < budget && ps == []
    ensures r.Pruned? <==> 0 <= recency < budget && ps != [] && true in kv
                           && forall k :: 0 <= k < |ps| ==> PassOk(ps, k, budget, nh)
    ensures r.Pruned? ==>
              |r.layers| == |nh| && AllReached(r.layers, runs, ps, |ps|, nh, Policy(budget, recency), topk)
    ensures r.Pruned? ==> forall i :: 0 <= i < |r.layers| ==> r.longest == Longest(Forwards(ps, i), budget)
  {
    if !(0 <= recency < budget) {
      return BadCall, [];
    }
    if ps == [] {
      return NothingRead, [];
    }
    r, runs := Passes(kv, ps, Policy(budget, recency), nh, topk);
  }

  /** The loop over the chunks. */
  method Passes(kv: seq<bool>, ps: seq<Pass>, p: Policy, nh: seq<nat>, topk: TopK)
    returns (r: CacheOutcome, ghost runs: seq<seq<seq<Chunk>>>)
    requires |nh| == |A.KvLayers(kv)| && HeadsOk(nh) && TopKLaw(topk) && ps != [] && p.Ok()
    ensures !r.BadCall? && !r.NothingRead?
    ensures r.Pruned? <==> true in kv && forall k :: 0 <= k < |ps| ==> PassOk(ps, k, p.budget, nh)
    ensures r.Pruned? ==> |r.layers| == |nh| && AllReached(r.layers, runs, ps, |ps|, nh, p, topk)
    ensures r.Pruned? ==> forall i :: 0 <= i < |r.layers| ==> r.longest == Longest(Forwards(ps, i), p.budget)
  {
    var m := |nh|;
    SomeLayer(kv);
    var layers, longest, n := Fresh(nh), 0, 0;
    runs := FreshLayers(ps, nh, p, topk);
    for k := 0 to |ps|
      invariant |layers| == m && AllReached(layers, runs, ps, k, nh, p, topk)
      invariant AllPassed(ps, k, p.budget, nh)
      invariant n == FedBy(ps[..k]) && (k > 0 ==> m > 0)
      invariant longest == Longest(Forwards(ps, 0)[..k], p.budget)
    {
      A.AlignInOrder(kv, ps[k].atts);
      if ps[k].atts == [] || A.Align(kv, ps[k].atts).None? {
        assert !PassOk(ps, k, p.budget, nh);
        return if ps[k].atts == [] then NoAttention else Unaligned, runs;
      }
      var ok, after, next, s := OnePass(layers, runs, ps, k, n, nh, p, topk);
      if !ok || m == 0 {
        assert !ok ==> !PassOk(ps, k, p.budget, nh);
        return if ok then NoKvLayer else BadAttention, runs;
      }
      Advance(ps, k, p.budget);
      longest := if longest < s then s else longest;
      layers, runs, n := after, next, n + ps[k].size;
    }
    SameLongest(ps, m, p.budget);
    r := Pruned(layers, longest);
  }

  ghost predicate AllPassed(ps: seq<Pass>, n: nat, budget: nat, nh: seq<nat>)
    requires n <= |ps| && HeadsOk(nh)
  {
    forall k :: 0 <= k < n ==> PassOk(ps, k, budget, nh)
  }

  lemma Advance(ps: seq<Pass>, k: nat, budget: nat)
    requires k < |ps|
    ensures FedBy(ps[..k + 1]) == FedBy(ps[..k]) + ps[k].size
    ensures var fs := Forwards(ps, 0);
            var l, s := Longest(fs[..k], budget), LengthAt(fs, k, budget);
            Longest(fs[..k + 1], budget) == if l < s then s else l
  {
    FedSnoc(Forwards(ps, 0), k, budget);
    assert ps[..k + 1][..k] == ps[..k];
  }

  lemma SameLongest(ps: seq<Pass>, m: nat, budget: nat)
    ensures forall i :: 0 <= i < m ==> Longest(Forwards(ps, 0)[..|ps|], budget) == Longest(Forwards(ps, i), budget)
  {
    forall i | 0 <= i < m ensures Longest(Forwards(ps, 0)[..|ps|], budget) == Longest(Forwards(ps, i), budget) {
      LongestAlike(ps, 0, i, budget, |ps|);
      assert Forwards(ps, i)[..|ps|] == Forwards(ps, i);
    }
  }

  lemma SomeLayer(kv: seq<bool>)
    ensures true in kv <==> |A.KvLayers(kv)| > 0
  {
    if l :| 0 <= l < |kv| && kv[l] { A.KvLayersComplete(kv, l); }
  }

  /** No layer ever exceeds the budget by more than one chunk. */
  lemma CacheBounded(ps: seq<Pass>, i: nat, budget: nat, chunk: nat)
    requires forall k :: 0 <= k < |ps| ==> ps[k].size <= chunk
    ensures Longest(Forwards(ps, i), budget) <= budget + chunk
  {
    LongestBounded(Forwards(ps, i), budget, chunk);
  }

  // ---- what every head has scored ----

  /** After the prefill, every survivor of every head of every layer has scored the attention its group of query heads
      paid it: its score is what the chunks of the head paid its position ... */
  lemma CacheScores(layers: seq<seq<Head>>, runs: seq<seq<seq<Chunk>>>, ps: seq<Pass>, nh: seq<nat>, p: Policy,
                    topk: TopK, i: nat, h: nat, s: nat)
    requires AllReached(layers, runs, ps, |ps|, nh, p, topk)
    requires i < |layers| && h < |layers[i]| && s < |layers[i][h].pos|
    ensures |runs[i]| == |layers[i]| && RunFits(runs[i][h], p) && TopKLaw(topk)
    ensures RunOf(runs[i][h], Forwards(ps, i), h, |layers[i]|)
    ensures layers[i][h].acc[s] == Paid(runs[i][h], p, topk, layers[i][h].pos[s])
  {
    assert LayerReached(layers[i], runs[i], Forwards(ps, i), |ps|, nh[i], p, topk);
    assert Forwards(ps, i)[..|ps|] == Forwards(ps, i);
    assert HeadAt(layers[i][h], runs[i][h], p, topk) && RunOf(runs[i][h], Forwards(ps, i), h, nh[i]);
    ScoreIsPaid(runs[i][h], p, topk, s);
  }

  /** ... and what chunk `k` paid slot `j` are the entries there of the rows of that group in the layer's own attention
      entry, added up. */
  lemma CacheRowsPay(run: seq<Chunk>, ps: seq<Pass>, nh: seq<nat>, p: Policy, i: nat, h: nat, k: nat, j: nat)
    requires HeadsOk(nh) && i < |nh| && h < nh[i] && RunOf(run, Forwards(ps, i), h, nh[i])
    requires k < |ps| && PassOk(ps, k, p.budget, nh) && j < Least(FedBy(ps[..k]), p.budget) + ps[k].size
    ensures var att, len := A.Present(ps[k].atts)[i], Least(FedBy(ps[..k]), p.budget) + ps[k].size;
            && |att| % nh[i] == 0 && AllShaped(att, len) && Shaped(run[k].rows, len) && run[k].size == ps[k].size
            && FirstOf(|att|, nh[i], h) <= FirstOf(|att|, nh[i], h + 1)
            && PaidTo(run[k].rows, j) == HeadsPay(att, FirstOf(|att|, nh[i], h), FirstOf(|att|, nh[i], h + 1), len, j)
  {
    var fs := Forwards(ps, i);
    FedAlike(ps, i, k);
    assert ForwardOk(fs, k, p.budget, nh[i]);
    GroupPays(run, fs, h, nh[i], k, LengthAt(fs, k, p.budget), j);
  }
}
