/** The chunked H2O prefill of one cache layer: every chunk's attention is checked, pooled over the
    query heads that share a key/value head, added to the carried scores, and the cache pruned. */
module H2OPrefill {
  import opened Nums
  import opened Seqs
  import opened Selection
  import opened Entries
  import opened H2O
  import opened Shares

  /** One forward over a chunk: `att[q][t]` is the attention row of query head `q`, query `t`. */
  datatype Forward = Forward(size: nat, att: seq<seq<Vec>>)

  function Fed(fs: seq<Forward>): nat {
    if fs == [] then 0 else Fed(fs[..|fs| - 1]) + fs[|fs| - 1].size
  }

  /** Cache length while forward `k` runs. */
  function LengthAt(fs: seq<Forward>, k: nat, budget: nat): nat
    requires k < |fs|
  {
    Least(Fed(fs[..k]), budget) + fs[k].size
  }

  predicate AlignedTo(f: Forward, len: nat) {
    forall q :: 0 <= q < |f.att| ==>
      |f.att[q]| == f.size && forall t :: 0 <= t < f.size ==> |f.att[q][t]| == len
  }

  /** The attention rows of the query heads grouped onto key/value head `h`. */
  function GroupRows(att: seq<seq<Vec>>, h: nat, nHeads: nat): (rows: seq<Vec>)
    requires h < nHeads && |att| % nHeads == 0
  {
    Flat(Share(att, nHeads, h))
  }

  lemma {:induction false} FlatShaped(parts: seq<seq<Vec>>, n: nat)
    requires forall q :: 0 <= q < |parts| ==> Shaped(parts[q], n)
    ensures Shaped(Flat(parts), n)
  {
    if parts != [] { FlatShaped(parts[1..], n); }
  }

  function FirstRows(att: seq<seq<Vec>>, h: nat, nHeads: nat): seq<Vec>
    requires h <= nHeads && nHeads > 0 && |att| % nHeads == 0
  {
    if h == 0 then [] else FirstRows(att, h - 1, nHeads) + GroupRows(att, h - 1, nHeads)
  }

  /** Every attention row is pooled into exactly one head, in order. */
  lemma {:induction false} GroupsCover(att: seq<seq<Vec>>, h: nat, nHeads: nat)
    requires h <= nHeads && nHeads > 0 && |att| % nHeads == 0
    ensures FirstRows(att, h, nHeads) == Flat(FirstShares(att, nHeads, h))
    ensures h == nHeads ==> FirstRows(att, h, nHeads) == Flat(att)
  {
    SharesCover(att, nHeads, h);
    if h > 0 {
      GroupsCover(att, h - 1, nHeads);
      FlatAppend(FirstShares(att, nHeads, h - 1), Share(att, nHeads, h - 1));
    }
  }

  /** What every head sees of the forwards: one chunk per forward, with the rows of its group. */
  ghost predicate RunsOf(runs: seq<seq<Chunk>>, fs: seq<Forward>, nHeads: nat) {
    |runs| == nHeads && forall h :: 0 <= h < nHeads ==> RunOf(runs[h], fs, h, nHeads)
  }

  ghost predicate RunOf(run: seq<Chunk>, fs: seq<Forward>, h: nat, nHeads: nat) {
    |run| == |fs| && forall k :: 0 <= k < |fs| ==> ChunkOf(run[k], fs[k], h, nHeads)
  }

  ghost predicate ChunkOf(c: Chunk, f: Forward, h: nat, nHeads: nat) {
    h < nHeads && |f.att| % nHeads == 0 && c == Chunk(f.size, GroupRows(f.att, h, nHeads))
  }

  lemma {:induction false} RunTokens(run: seq<Chunk>, fs: seq<Forward>, h: nat, nHeads: nat)
    requires RunOf(run, fs, h, nHeads)
    ensures Tokens(run) == Fed(fs)
  {
    if fs != [] {
      var p := |fs| - 1;
      assert ChunkOf(run[p], fs[p], h, nHeads);
      RunTokens(run[..p], fs[..p], h, nHeads);
    }
  }

  /** The longest cache any forward sees. */
  function Longest(fs: seq<Forward>, budget: nat): nat {
    if fs == [] then 0
    else
      var m, s := Longest(fs[..|fs| - 1], budget), LengthAt(fs, |fs| - 1, budget);
      if m < s then s else m
  }

  /** No layer ever holds more than the budget plus one chunk. */
  lemma {:induction false} LongestBounded(fs: seq<Forward>, budget: nat, chunk: nat)
    requires forall k :: 0 <= k < |fs| ==> fs[k].size <= chunk
    ensures Longest(fs, budget) <= budget + chunk
  {
    if fs != [] { LongestBounded(fs[..|fs| - 1], budget, chunk); }
  }

  /** A run extended by one fitting chunk takes one more step. */
  lemma RunExtend(run: seq<Chunk>, c: Chunk, p: Policy, topk: TopK)
    requires TopKLaw(topk) && RunFits(run, p) && Shaped(c.rows, Least(Tokens(run), p.budget) + c.size)
    ensures RunFits(run + [c], p) && H2O.ChunkFits(Run(run, p, topk), c)
    ensures Run(run + [c], p, topk) == Step(Run(run, p, topk), Tokens(run), c, p, topk)
  {
    var r := run + [c];
    assert r[..|run|] == run;
    forall k | 0 <= k < |r| ensures Shaped(r[k].rows, Least(Tokens(r[..k]), p.budget) + r[k].size) {
      if k < |run| { assert r[..k] == run[..k]; }
    }
    RunUnfold(r, p, topk);
  }

  ghost predicate HeadAt(head: Head, run: seq<Chunk>, p: Policy, topk: TopK) {
    TopKLaw(topk) && RunFits(run, p) && head == Run(run, p, topk)
  }

  ghost predicate HeadsAt(heads: seq<Head>, runs: seq<seq<Chunk>>, p: Policy, topk: TopK) {
    |heads| == |runs| && forall h :: 0 <= h < |runs| ==> HeadAt(heads[h], runs[h], p, topk)
  }

  /** One head takes one chunk: carried score plus pooled attention, then pruning when the cache is
      over budget. `n` tokens precede the chunk. */
  method StepHead(head: Head, c: Chunk, n: nat, p: Policy, topk: TopK) returns (after: Head)
    requires p.Ok() && H2O.ChunkFits(head, c)
    ensures after == Step(head, n, c, p, topk)
  {
    var s := Scores(head, c);
    var g := head.pos + Range(n, n + c.size);
    if |s| > p.budget {
      var nOld := |s| - p.recency;
      var top := Sorted(topk(s[..nOld], p.budget - p.recency), nOld);
      var idx := top + Range(nOld, |s|);
      after := Head(Gather(g, idx), Gather(s, idx));
    } else {
      after := Head(g, s);
    }
  }

  lemma GroupShaped(f: Forward, len: nat, h: nat, nHeads: nat)
    requires AlignedTo(f, len) && h < nHeads && |f.att| % nHeads == 0
    ensures Shaped(GroupRows(f.att, h, nHeads), len)
  {
    var rows := Share(f.att, nHeads, h);
    forall q | 0 <= q < |rows| ensures Shaped(rows[q], len) { assert rows[q] in f.att; }
    FlatShaped(rows, len);
  }

  ghost function NextRuns(runs: seq<seq<Chunk>>, f: Forward, nHeads: nat): (r: seq<seq<Chunk>>)
    requires |runs| == nHeads && nHeads > 0 && |f.att| % nHeads == 0
    ensures |r| == nHeads
    ensures forall h :: 0 <= h < nHeads ==> r[h] == runs[h] + [Chunk(f.size, GroupRows(f.att, h, nHeads))]
  {
    seq(nHeads, h requires 0 <= h < nHeads => runs[h] + [Chunk(f.size, GroupRows(f.att, h, nHeads))])
  }

  lemma NextRunsOf(runs: seq<seq<Chunk>>, fs: seq<Forward>, f: Forward, nHeads: nat)
    requires RunsOf(runs, fs, nHeads) && nHeads > 0 && |f.att| % nHeads == 0
    ensures RunsOf(NextRuns(runs, f, nHeads), fs + [f], nHeads)
  {
    var r := NextRuns(runs, f, nHeads);
    forall h | 0 <= h < nHeads ensures RunOf(r[h], fs + [f], h, nHeads) {
      assert RunOf(runs[h], fs, h, nHeads);
      assert ChunkOf(Chunk(f.size, GroupRows(f.att, h, nHeads)), f, h, nHeads);
    }
  }

  ghost predicate HeadsFit(heads: seq<Head>, f: Forward, p: Policy) {
    && p.Ok() && |heads| > 0 && |f.att| % |heads| == 0
    && forall h :: 0 <= h < |heads| ==> H2O.ChunkFits(heads[h], Chunk(f.size, GroupRows(f.att, h, |heads|)))
  }

  /** Every head takes its group's share of one forward. */
  method StepHeads(heads: seq<Head>, f: Forward, n: nat, p: Policy, topk: TopK) returns (after: seq<Head>)
    requires HeadsFit(heads, f, p)
    ensures |after| == |heads|
    ensures forall h :: 0 <= h < |heads| ==>
              after[h] == Step(heads[h], n, Chunk(f.size, GroupRows(f.att, h, |heads|)), p, topk)
  {
    after := [];
    for h := 0 to |heads|
      invariant |after| == h
      invariant forall i :: 0 <= i < h ==>
                  after[i] == Step(heads[i], n, Chunk(f.size, GroupRows(f.att, i, |heads|)), p, topk)
    {
      var a := StepHead(heads[h], Chunk(f.size, GroupRows(f.att, h, |heads|)), n, p, topk);
      after := after + [a];
    }
  }

  /** When every head holds its run, a forward aligned with the cache fits every head. */
  lemma HeadFits(head: Head, run: seq<Chunk>, fs: seq<Forward>, f: Forward, h: nat, nHeads: nat, p: Policy, topk: TopK)
    requires HeadAt(head, run, p, topk) && RunOf(run, fs, h, nHeads)
    requires h < nHeads && |f.att| % nHeads == 0 && AlignedTo(f, Least(Fed(fs), p.budget) + f.size)
    ensures var c := Chunk(f.size, GroupRows(f.att, h, nHeads));
            && H2O.ChunkFits(head, c)
            && HeadAt(Step(head, Fed(fs), c, p, topk), run + [c], p, topk)
  {
    RunTokens(run, fs, h, nHeads);
    GroupShaped(f, Least(Fed(fs), p.budget) + f.size, h, nHeads);
    RunExtend(run, Chunk(f.size, GroupRows(f.att, h, nHeads)), p, topk);
  }

  lemma AllHeadsFit(heads: seq<Head>, runs: seq<seq<Chunk>>, fs: seq<Forward>, f: Forward, p: Policy, topk: TopK)
    requires p.Ok() && HeadsAt(heads, runs, p, topk) && RunsOf(runs, fs, |heads|) && |heads| > 0
    requires |f.att| % |heads| == 0 && AlignedTo(f, Least(Fed(fs), p.budget) + f.size)
    ensures HeadsFit(heads, f, p)
  {
    forall h | 0 <= h < |heads| ensures H2O.ChunkFits(heads[h], Chunk(f.size, GroupRows(f.att, h, |heads|))) {
      assert HeadAt(heads[h], runs[h], p, topk) && RunOf(runs[h], fs, h, |heads|);
      HeadFits(heads[h], runs[h], fs, f, h, |heads|, p, topk);
    }
  }

  lemma HeadsStepped(heads: seq<Head>, after: seq<Head>, runs: seq<seq<Chunk>>, fs: seq<Forward>, f: Forward,
                     p: Policy, topk: TopK)
    requires HeadsAt(heads, runs, p, topk) && RunsOf(runs, fs, |heads|) && HeadsFit(heads, f, p) && |after| == |heads|
    requires AlignedTo(f, Least(Fed(fs), p.budget) + f.size)
    requires forall h :: 0 <= h < |heads| ==>
               after[h] == Step(heads[h], Fed(fs), Chunk(f.size, GroupRows(f.att, h, |heads|)), p, topk)
    ensures HeadsAt(after, NextRuns(runs, f, |heads|), p, topk)
  {
    var next := NextRuns(runs, f, |heads|);
    forall h | 0 <= h < |heads| ensures HeadAt(after[h], next[h], p, topk) {
      assert HeadAt(heads[h], runs[h], p, topk) && RunOf(runs[h], fs, h, |heads|);
      HeadFits(heads[h], runs[h], fs, f, h, |heads|, p, topk);
    }
  }

  ghost predicate ForwardOk(fs: seq<Forward>, k: nat, budget: nat, nHeads: nat)
    requires k < |fs| && nHeads > 0
  {
    AlignedTo(fs[k], LengthAt(fs, k, budget)) && |fs[k].att| % nHeads == 0
  }

  lemma FreshHeads(nHeads: nat, p: Policy, topk: TopK)
    requires p.Ok() && TopKLaw(topk)
    ensures HeadsAt(seq(nHeads, _ => FRESH), seq(nHeads, _ => []), p, topk)
    ensures RunsOf(seq(nHeads, _ => []), [], nHeads)
  {}

  /** Every head holds what the run of its own group leaves after the forwards `fs`. */
  ghost predicate Reached(heads: seq<Head>, runs: seq<seq<Chunk>>, fs: seq<Forward>, p: Policy, topk: TopK) {
    HeadsAt(heads, runs, p, topk) && RunsOf(runs, fs, |heads|)
  }

  lemma NextReached(heads: seq<Head>, after: seq<Head>, runs: seq<seq<Chunk>>, fs: seq<Forward>, f: Forward,
                    p: Policy, topk: TopK)
    requires Reached(heads, runs, fs, p, topk) && HeadsFit(heads, f, p) && |after| == |heads|
    requires AlignedTo(f, Least(Fed(fs), p.budget) + f.size)
    requires forall h :: 0 <= h < |heads| ==>
               after[h] == Step(heads[h], Fed(fs), Chunk(f.size, GroupRows(f.att, h, |heads|)), p, topk)
    ensures Reached(after, NextRuns(runs, f, |heads|), fs + [f], p, topk)
  {
    HeadsStepped(heads, after, runs, fs, f, p, topk);
    NextRunsOf(runs, fs, f, |heads|);
  }

  lemma FedSnoc(fs: seq<Forward>, k: nat, budget: nat)
    requires k < |fs|
    ensures fs[..k + 1] == fs[..k] + [fs[k]] && Fed(fs[..k + 1]) == Fed(fs[..k]) + fs[k].size
    ensures LengthAt(fs, k, budget) == Least(Fed(fs[..k]), budget) + fs[k].size
    ensures var m, s := Longest(fs[..k], budget), LengthAt(fs, k, budget);
            Longest(fs[..k + 1], budget) == if m < s then s else m
  {
    assert fs[..k + 1] == fs[..k] + [fs[k]] && fs[..k + 1][..k] == fs[..k];
  }

  /** One forward: its attention must match the cache and group onto the heads, which then take it. */
  method OneForward(heads: seq<Head>, ghost runs: seq<seq<Chunk>>, fs: seq<Forward>, k: nat, n: nat, p: Policy,
                    topk: TopK)
    returns (aligned: bool, grouped: bool, s: nat, after: seq<Head>, ghost next: seq<seq<Chunk>>)
    requires k < |fs| && n == Fed(fs[..k]) && heads != [] && p.Ok() && Reached(heads, runs, fs[..k], p, topk)
    ensures s == LengthAt(fs, k, p.budget) && (aligned <==> AlignedTo(fs[k], s))
    ensures aligned && grouped <==> ForwardOk(fs, k, p.budget, |heads|)
    ensures aligned && grouped ==> |after| == |heads| && Reached(after, next, fs[..k + 1], p, topk)
  {
    var f := fs[k];
    FedSnoc(fs, k, p.budget);
    HeadLength(heads[0], runs[0], fs[..k], p, topk, |heads|);
    s, after, next := |heads[0].pos| + f.size, heads, runs;
    aligned, grouped := AlignedTo(f, s), |f.att| % |heads| == 0;
    if aligned && grouped {
      AllHeadsFit(heads, runs, fs[..k], f, p, topk);
      after := StepHeads(heads, f, n, p, topk);
      NextReached(heads, after, runs, fs[..k], f, p, topk);
      next := NextRuns(runs, f, |heads|);
    }
  }

  lemma HeadLength(head: Head, run: seq<Chunk>, fs: seq<Forward>, p: Policy, topk: TopK, nHeads: nat)
    requires HeadAt(head, run, p, topk) && RunOf(run, fs, 0, nHeads)
    ensures |head.pos| == Least(Fed(fs), p.budget)
  {
    RunTokens(run, fs, 0, nHeads);
  }

  // ---- scores in terms of the attention entries ----

  /** The rows of consecutive query heads, one after the other, pay what those heads pay. */
  lemma {:induction false} SliceRowsPay(att: seq<seq<Vec>>, a: nat, b: nat, len: nat, j: nat)
    requires a <= b <= |att| && j < len && AllShaped(att, len)
    ensures Shaped(Flat(att[a..b]), len) && PaidTo(Flat(att[a..b]), j) == HeadsPay(att, a, b, len, j)
  {
    if a < b {
      SliceRowsPay(att, a, b - 1, len, j);
      assert att[a..b] == att[a..b - 1] + [att[b - 1]];
      FlatPay(att[a..b - 1], att[b - 1], len, j);
    }
  }

  lemma FlatPay(parts: seq<seq<Vec>>, last: seq<Vec>, len: nat, j: nat)
    requires Shaped(Flat(parts), len) && Shaped(last, len) && j < len
    ensures Shaped(Flat(parts + [last]), len)
            && PaidTo(Flat(parts + [last]), j) == PaidTo(Flat(parts), j) + PaidTo(last, j)
  {
    FlatSnoc(parts, last);
    PaidAppend(Flat(parts), last, len, j);
  }

  lemma GroupRowsPay(f: Forward, len: nat, h: nat, nHeads: nat, j: nat)
    requires AlignedTo(f, len) && AllShaped(f.att, len) && h < nHeads && |f.att| % nHeads == 0 && j < len
    ensures Shaped(GroupRows(f.att, h, nHeads), len)
    ensures FirstOf(|f.att|, nHeads, h) <= FirstOf(|f.att|, nHeads, h + 1)
    ensures PaidTo(GroupRows(f.att, h, nHeads), j)
         == HeadsPay(f.att, FirstOf(|f.att|, nHeads, h), FirstOf(|f.att|, nHeads, h + 1), len, j)
  {
    ShareBounds(nHeads, |f.att|, h);
    SliceRowsPay(f.att, FirstOf(|f.att|, nHeads, h), FirstOf(|f.att|, nHeads, h + 1), len, j);
  }

  /** What a chunk of head `h` pays a slot is what the query heads of its group pay it in that forward: heads
      `h * g` to `h * g + g - 1`, `g` being the query heads per key/value head. */
  lemma GroupPays(run: seq<Chunk>, fs: seq<Forward>, h: nat, nHeads: nat, k: nat, len: nat, j: nat)
    requires RunOf(run, fs, h, nHeads) && k < |fs| && h < nHeads && AlignedTo(fs[k], len) && j < len
    ensures |fs[k].att| % nHeads == 0 && run[k].size == fs[k].size && AllShaped(fs[k].att, len)
    ensures Shaped(run[k].rows, len)
    ensures FirstOf(|fs[k].att|, nHeads, h) <= FirstOf(|fs[k].att|, nHeads, h + 1)
    ensures PaidTo(run[k].rows, j)
         == HeadsPay(fs[k].att, FirstOf(|fs[k].att|, nHeads, h), FirstOf(|fs[k].att|, nHeads, h + 1), len, j)
  {
    assert ChunkOf(run[k], fs[k], h, nHeads);
    GroupRowsPay(fs[k], len, h, nHeads, j);
  }
}
