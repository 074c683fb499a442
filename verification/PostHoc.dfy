/** SnapKV- and H2O-style eviction after the prompt: prefix tokens ranked by the attention an
    observation window pays them. */
module PostHoc {
  import opened Options
  import opened Nums
  import opened Seqs
  import opened Selection
  import opened Shares
  import opened Entries
  import A = Alignment

  /** Max-pooling of width `kernel`, stride one, padded by half the kernel and cut to length. */
  function Pooled(s: Vec, kernel: nat): (r: Vec)
    requires kernel > 1
    ensures |r| == |s|
    ensures forall i :: 0 <= i < |s| ==> r[i] == Max(Window(s, kernel, i))
  {
    seq(|s|, i requires 0 <= i < |s| => Max(Window(s, kernel, i)))
  }

  function Window(s: Vec, kernel: nat, i: nat): (w: Vec)
    requires kernel > 1 && i < |s|
    ensures w != []
  {
    var lo := if i < kernel / 2 then 0 else i - kernel / 2;
    var hi := if i - kernel / 2 + kernel < |s| then i - kernel / 2 + kernel else |s|;
    s[lo..hi]
  }

  /** A pooled score is the best score within half a kernel: none of those exceeds it, and one attains it. */
  lemma PooledIsNearbyBest(s: Vec, kernel: nat, i: nat)
    requires kernel > 1 && i < |s|
    ensures forall j :: 0 <= j < |s| && Nearby(i, j, kernel) ==> s[j] <= Pooled(s, kernel)[i]
    ensures exists j :: 0 <= j < |s| && Nearby(i, j, kernel) && s[j] == Pooled(s, kernel)[i]
  {
    var lo := if i < kernel / 2 then 0 else i - kernel / 2;
    var w := Window(s, kernel, i);
    assert Pooled(s, kernel)[i] == Max(w);
    BestOf(s, w, lo, Max(w), i, kernel);
  }

  lemma BestOf(s: Vec, w: Vec, lo: nat, m: real, i: nat, kernel: nat)
    requires lo + |w| <= |s| && w == s[lo..lo + |w|] && m in w && forall k :: 0 <= k < |w| ==> w[k] <= m
    requires forall j :: 0 <= j < |s| ==> (Nearby(i, j, kernel) <==> lo <= j < lo + |w|)
    ensures forall j :: 0 <= j < |s| && Nearby(i, j, kernel) ==> s[j] <= m
    ensures exists j :: 0 <= j < |s| && Nearby(i, j, kernel) && s[j] == m
  {
    forall j | 0 <= j < |s| && Nearby(i, j, kernel) ensures s[j] <= m { assert w[j - lo] == s[j]; }
    var k :| 0 <= k < |w| && w[k] == m;
    assert s[lo + k] == w[k] && Nearby(i, lo + k, kernel);
  }

  /** Within half a kernel; an even kernel reaches one slot less far ahead. */
  predicate Nearby(i: nat, j: int, kernel: nat) {
    i - kernel / 2 <= j < i - kernel / 2 + kernel
  }

  function Ranked(s: Vec, kernel: nat): (r: Vec)
    ensures |r| == |s|
  {
    if kernel > 1 then Pooled(s, kernel) else s
  }

  function KeepCount(keep: int, n: nat): (k: nat)
    requires n > 0
    ensures 1 <= k <= n
  {
    var m := if keep < n then keep else n;
    if m < 1 then 1 else m
  }

  /** The retained prefix slots, ascending. */
  function Select(s: Vec, keep: int, kernel: nat, topk: TopK): (idx: seq<nat>)
    requires s != []
    ensures forall i :: 0 <= i < |idx| ==> idx[i] < |s|
    ensures forall i, j :: 0 <= i < j < |idx| ==> idx[i] < idx[j]
  {
    Sorted(topk(Ranked(s, kernel), KeepCount(keep, |s|)), |s|)
  }

  /** Exactly `max(1, min(keep, prefix))` slots are retained, so the budget is met exactly when it
      asks for at least one token. */
  lemma SelectCount(s: Vec, keep: int, kernel: nat, topk: TopK)
    requires s != [] && TopKLaw(topk)
    ensures |Select(s, keep, kernel, topk)| == KeepCount(keep, |s|)
    ensures |Select(s, keep, kernel, topk)| == if keep < 1 then 1 else if keep > |s| then |s| else keep
    ensures |Select(s, keep, kernel, topk)| == (if keep < |s| then keep else |s|) <==> keep >= 1
  {
    var r, k := Ranked(s, kernel), KeepCount(keep, |s|);
    assert IsTopK(r, k, topk(r, k));
    SortedLength(topk(r, k), |s|);
  }

  /** No other choice of as many prefix slots has a larger sum of ranking scores. */
  lemma SelectIsOptimal(s: Vec, keep: int, kernel: nat, topk: TopK, other: set<nat>)
    requires s != [] && TopKLaw(topk)
    requires |other| == KeepCount(keep, |s|) && forall i :: i in other ==> i < |s|
    ensures SelSum(Ranked(s, kernel), other) <= Sum(Gather(Ranked(s, kernel), Select(s, keep, kernel, topk)))
  {
    var r, k := Ranked(s, kernel), KeepCount(keep, |s|);
    assert IsTopK(r, k, topk(r, k));
    TopKIsOptimal(r, k, topk(r, k), other);
    GatherSum(r, topk(r, k), |r|);
    assert r[..|r|] == r;
  }

  // ---- forcing the recent block in ----

  /** The last `recency` scores raised to `boost`. */
  function Boosted(s: Vec, recency: nat, boost: real): (r: Vec)
    requires recency <= |s|
    ensures |r| == |s|
    ensures forall i :: 0 <= i < |s| ==> r[i] == if i < |s| - recency then s[i] else boost
  {
    seq(|s|, i requires 0 <= i < |s| => if i < |s| - recency then s[i] else boost)
  }

  predicate Recent(i: nat, n: nat, recency: nat) {
    i + recency >= n
  }

  ghost predicate AllUnder(s: Vec, boost: real) {
    forall j :: 0 <= j < |s| ==> s[j] < boost
  }

  /** How far ahead of a slot its pooling window reaches. */
  function Reach(kernel: nat): nat {
    if kernel > 1 then (kernel - 1) / 2 else 0
  }

  /** How many slots rank as the recent block does: its own, and those whose pooling window reaches it. */
  function LiftedCount(n: nat, recency: nat, kernel: nat): (l: nat)
    requires recency <= n
    ensures recency <= l <= n
  {
    recency + Least(Reach(kernel), n - recency)
  }

  /** The last `l` scores are the boost and the others are below it. */
  ghost predicate Lifted(b: Vec, l: nat, boost: real) {
    && l <= |b|
    && forall i :: 0 <= i < |b| ==> if Recent(i, |b|, l) then b[i] == boost else b[i] < boost
  }

  /** Pooling after the boost lifts the slots before the recent block to its level, as far as a window reaches, and
      leaves the other slots with the ranks they have without a boost. */
  lemma BoostSpreads(s: Vec, recency: nat, boost: real, kernel: nat)
    requires 0 < recency <= |s| && AllUnder(s, boost)
    ensures var b, l := Ranked(Boosted(s, recency, boost), kernel), LiftedCount(|s|, recency, kernel);
            && Lifted(b, l, boost)
            && forall i :: 0 <= i < |s| - l ==> b[i] == Ranked(s, kernel)[i]
  {
    var b, l := Ranked(Boosted(s, recency, boost), kernel), LiftedCount(|s|, recency, kernel);
    if kernel > 1 {
      forall i: nat | i < |s|
        ensures if Recent(i, |s|, l) then b[i] == boost else b[i] < boost && b[i] == Ranked(s, kernel)[i]
      {
        if Recent(i, |s|, l) {
          NearRecent(s, recency, boost, kernel, i);
        } else {
          FarFromRecent(s, recency, boost, kernel, i);
        }
      }
    }
  }

  lemma NearRecent(s: Vec, recency: nat, boost: real, kernel: nat, i: nat)
    requires 0 < recency <= |s| && AllUnder(s, boost) && kernel > 1 && i < |s|
    requires Recent(i, |s|, recency + Reach(kernel))
    ensures Pooled(Boosted(s, recency, boost), kernel)[i] == boost
  {
    var b, first := Boosted(s, recency, boost), |s| - recency;
    PooledIsNearbyBest(b, kernel, i);
    var j := if i < first then first else i;
    assert Nearby(i, j, kernel) && b[j] == boost;
  }

  lemma FarFromRecent(s: Vec, recency: nat, boost: real, kernel: nat, i: nat)
    requires 0 < recency <= |s| && AllUnder(s, boost) && kernel > 1 && i < |s|
    requires !Recent(i, |s|, recency + Reach(kernel))
    ensures Pooled(Boosted(s, recency, boost), kernel)[i] == Pooled(s, kernel)[i] < boost
  {
    assert Window(Boosted(s, recency, boost), kernel, i) == Window(s, kernel, i);
    PooledIsNearbyBest(s, kernel, i);
  }

  function RecentSet(n: nat, recency: nat): (r: set<nat>)
    requires recency <= n
    ensures forall i: nat :: i in r <==> i < n && Recent(i, n, recency)
  {
    Below(n) - Below(n - recency)
  }

  /** When the lifted slots fit the kept count all of them are kept. */
  lemma LiftedKept(b: Vec, l: nat, boost: real, k: nat, kept: set<nat>, i: nat)
    requires Lifted(b, l, boost) && IsTopK(b, k, kept)
    requires l <= k && i < |b| && Recent(i, |b|, l)
    ensures i in kept
  {
    if i !in kept {
      var lifted := RecentSet(|b|, l);
      forall j | j in kept ensures j in lifted && j != i { assert b[i] <= b[j]; }
      RecentSize(|b|, l);
      SubsetSize(kept, lifted - {i});
    }
  }

  /** A kept slot that outranks a dropped lifted one is lifted too. */
  lemma OverLifted(b: Vec, l: nat, boost: real, k: nat, kept: set<nat>, i: nat, j: nat)
    requires Lifted(b, l, boost) && IsTopK(b, k, kept)
    requires i in kept && j !in kept && j < |b| && Recent(j, |b|, l)
    ensures Recent(i, |b|, l)
  {
    assert b[j] <= b[i];
  }

  /** When they do not, nothing else is. */
  lemma OnlyLifted(b: Vec, l: nat, boost: real, k: nat, kept: set<nat>, i: nat)
    requires Lifted(b, l, boost) && IsTopK(b, k, kept)
    requires l >= k && i in kept
    ensures Recent(i, |b|, l)
  {
    if !Recent(i, |b|, l) {
      var lifted := RecentSet(|b|, l);
      forall j | j in lifted ensures j in kept && j != i {
        if j !in kept { OverLifted(b, l, boost, k, kept, i, j); }
      }
      RecentSize(|b|, l);
      SubsetSize(lifted, kept - {i});
    }
  }

  predicate Between(i: int, lo: int, hi: int) {
    lo <= i < hi
  }

  /** Of tied slots the first-best choice takes the oldest ones. */
  lemma {:induction false} OldestLifted(b: Vec, l: nat, boost: real, k: nat)
    requires Lifted(b, l, boost) && k <= l
    ensures forall i :: i in FirstBest(b, k) <==> Between(i, |b| - l, |b| - l + k)
  {
    if k > 0 {
      OldestLifted(b, l, boost, k - 1);
      NextLifted(b, l, boost, k - 1, FirstBest(b, k - 1), |b|);
    }
  }

  lemma {:induction false} NextLifted(b: Vec, l: nat, boost: real, k: nat, taken: set<nat>, n: nat)
    requires Lifted(b, l, boost) && k < l && n <= |b|
    requires forall i :: i in taken <==> Between(i, |b| - l, |b| - l + k)
    ensures var best := BestSlot(b, n, taken);
            if n <= |b| - l + k then best.Some? ==> best.value < |b| - l else best == Some(|b| - l + k)
  {
    if n > 0 { NextLifted(b, l, boost, k, taken, n - 1); }
  }

  lemma {:induction false} RecentSize(n: nat, recency: nat)
    requires recency <= n
    ensures |RecentSet(n, recency)| == recency
  {
    if recency > 0 {
      RecentSize(n, recency - 1);
      assert RecentSet(n, recency) == RecentSet(n, recency - 1) + {n - recency};
    } else {
      assert RecentSet(n, 0) == {};
    }
  }

  lemma {:induction false} SubsetSize(a: set<nat>, b: set<nat>)
    requires a <= b
    ensures |a| <= |b|
    decreases a
  {
    if x :| x in a { SubsetSize(a - {x}, b - {x}); }
  }

  // ---- one layer ----

  /** `att[q][t][j]`: attention of query head `q`, observation query `t`, to token `j`. */
  type Attention = seq<seq<Vec>>

  predicate AttentionOk(att: Attention, len: nat) {
    forall q :: 0 <= q < |att| ==> forall t :: 0 <= t < |att[q]| ==> |att[q][t]| == len
  }

  /** Attention mass of every prefix token under one query head. */
  function QueryScores(rows: seq<Vec>, plen: nat, len: nat): (s: Vec)
    requires Shaped(rows, len) && plen <= len
    ensures |s| == plen && forall j :: 0 <= j < plen ==> s[j] == Sum(Column(rows, j))
  {
    seq(plen, j requires 0 <= j < plen => Sum(Column(rows, j)))
  }

  predicate Groups(nQ: nat, nKv: nat) {
    nKv > 0 && nQ > 0 && nQ % nKv == 0
  }

  /** Attention mass that the query heads of `att` pay token `j`. */
  function MassTo(att: Attention, plen: nat, len: nat, j: nat): real
    requires AttentionOk(att, len) && j < plen <= len
  {
    Sum(PaidBy(att, plen, len, j))
  }

  function PaidBy(att: Attention, plen: nat, len: nat, j: nat): (v: Vec)
    requires AttentionOk(att, len) && j < plen <= len
    ensures |v| == |att| && forall q :: 0 <= q < |att| ==> v[q] == QueryScores(att[q], plen, len)[j]
  {
    seq(|att|, q requires 0 <= q < |att| => QueryScores(att[q], plen, len)[j])
  }

  /** Scores of one key/value head: the mean over the query heads of its group. */
  function HeadScores(group: seq<seq<Vec>>, plen: nat, len: nat): (s: Vec)
    requires group != [] && AttentionOk(group, len) && plen <= len
    ensures |s| == plen
  {
    seq(plen, j requires 0 <= j < plen => MassTo(group, plen, len, j) / |group| as real)
  }

  /** All heads' scores of a layer. */
  function LayerScores(att: Attention, nKv: nat, plen: nat, len: nat): (ss: seq<Vec>)
    requires Groups(|att|, nKv) && AttentionOk(att, len) && plen <= len
    ensures |ss| == nKv && forall h :: 0 <= h < nKv ==> |ss[h]| == plen
    ensures forall h :: 0 <= h < nKv ==>
              AttentionOk(Share(att, nKv, h), len) && ss[h] == HeadScores(Share(att, nKv, h), plen, len)
  {
    assert forall h :: 0 <= h < nKv ==> AttentionOk(Share(att, nKv, h), len);
    seq(nKv, h requires 0 <= h < nKv => HeadScores(Share(att, nKv, h), plen, len))
  }

  /** Mass of the first `h` key/value heads' scores of token `j`, each counted for its whole group. */
  function ScoredMass(att: Attention, nKv: nat, plen: nat, len: nat, j: nat, h: nat): real
    requires Groups(|att|, nKv) && AttentionOk(att, len) && j < plen <= len && h <= nKv
  {
    if h == 0 then 0.0
    else
      ScoredMass(att, nKv, plen, len, j, h - 1) + Weighed(LayerScores(att, nKv, plen, len)[h - 1][j], |att| / nKv)
  }

  function Weighed(x: real, n: nat): (r: real)
    requires n > 0
    ensures r / n as real == x
  {
    x * n as real
  }

  lemma MassAppend(a: Attention, b: Attention, plen: nat, len: nat, j: nat)
    requires AttentionOk(a, len) && AttentionOk(b, len) && j < plen <= len
    ensures AttentionOk(a + b, len) && MassTo(a + b, plen, len, j) == MassTo(a, plen, len, j) + MassTo(b, plen, len, j)
  {
    SumAppend(PaidBy(a, plen, len, j), PaidBy(b, plen, len, j));
    assert PaidBy(a + b, plen, len, j) == PaidBy(a, plen, len, j) + PaidBy(b, plen, len, j);
  }

  lemma WeighedMean(x: real, n: nat)
    requires n > 0
    ensures Weighed(x / n as real, n) == x
  {}

  lemma GroupMass(att: Attention, nKv: nat, plen: nat, len: nat, j: nat, h: nat)
    requires Groups(|att|, nKv) && AttentionOk(att, len) && j < plen <= len && h < nKv
    ensures AttentionOk(Share(att, nKv, h), len)
    ensures Weighed(LayerScores(att, nKv, plen, len)[h][j], |att| / nKv) == MassTo(Share(att, nKv, h), plen, len, j)
  {
    WeighedMean(MassTo(Share(att, nKv, h), plen, len, j), |att| / nKv);
  }

  lemma {:induction false} FirstGroupsMass(att: Attention, nKv: nat, plen: nat, len: nat, j: nat, h: nat)
    requires Groups(|att|, nKv) && AttentionOk(att, len) && j < plen <= len && h <= nKv
    ensures AttentionOk(FirstShares(att, nKv, h), len)
    ensures ScoredMass(att, nKv, plen, len, j, h) == MassTo(FirstShares(att, nKv, h), plen, len, j)
  {
    if h == 0 {
      assert PaidBy([], plen, len, j) == [];
    } else {
      FirstGroupsMass(att, nKv, plen, len, j, h - 1);
      var p, group := FirstShares(att, nKv, h - 1), Share(att, nKv, h - 1);
      GroupMass(att, nKv, plen, len, j, h - 1);
      MassAppend(p, group, plen, len, j);
      assert FirstShares(att, nKv, h) == p + group;
    }
  }

  // ---- scores in terms of the attention entries ----

  lemma {:induction false} MassIsPay(att: Attention, a: nat, b: nat, plen: nat, len: nat, j: nat)
    requires a <= b <= |att| && AttentionOk(att, len) && j < plen <= len
    ensures AttentionOk(att[a..b], len) && MassTo(att[a..b], plen, len, j) == HeadsPay(att, a, b, len, j)
  {
    if a == b {
      assert PaidBy(att[a..b], plen, len, j) == [];
    } else {
      MassIsPay(att, a, b - 1, plen, len, j);
      OneHeadPays(att[b - 1], plen, len, j);
      MassAppend(att[a..b - 1], [att[b - 1]], plen, len, j);
      assert att[a..b] == att[a..b - 1] + [att[b - 1]];
    }
  }

  lemma OneHeadPays(rows: seq<Vec>, plen: nat, len: nat, j: nat)
    requires Shaped(rows, len) && j < plen <= len
    ensures AttentionOk([rows], len) && MassTo([rows], plen, len, j) == PaidTo(rows, j)
  {
    ColumnPays(rows, j);
    var v := PaidBy([rows], plen, len, j);
    assert v == [PaidTo(rows, j)] && v[1..] == [] && Sum(v[1..]) == 0.0;
  }

  /** A head's score of a prefix token, times the query heads of its group, is the sum of the entries `att[q][t][j]` of
      those heads over all observed queries. */
  lemma ScoreIsMass(att: Attention, nKv: nat, plen: nat, len: nat, h: nat, j: nat)
    requires Groups(|att|, nKv) && AttentionOk(att, len) && h < nKv && j < plen <= len
    ensures FirstOf(|att|, nKv, h) <= FirstOf(|att|, nKv, h + 1)
    ensures LayerScores(att, nKv, plen, len)[h][j] * (|att| / nKv) as real
         == HeadsPay(att, FirstOf(|att|, nKv, h), FirstOf(|att|, nKv, h + 1), len, j)
  {
    ShareBounds(nKv, |att|, h);
    GroupMass(att, nKv, plen, len, j, h);
    MassIsPay(att, FirstOf(|att|, nKv, h), FirstOf(|att|, nKv, h + 1), plen, len, j);
    assert Share(att, nKv, h) == att[FirstOf(|att|, nKv, h)..FirstOf(|att|, nKv, h + 1)];
  }

  /** Averaging over groups neither loses attention nor counts it twice: a token's scores, each weighed by its
      group's size, add up to the entries of all query heads. */
  lemma GroupMeansConserve(att: Attention, nKv: nat, plen: nat, len: nat, j: nat)
    requires Groups(|att|, nKv) && AttentionOk(att, len) && j < plen <= len
    ensures ScoredMass(att, nKv, plen, len, j, nKv) == MassTo(att, plen, len, j) == HeadsPay(att, 0, |att|, len, j)
  {
    SharesCover(att, nKv, nKv);
    FirstGroupsMass(att, nKv, plen, len, j, nKv);
    MassIsPay(att, 0, |att|, plen, len, j);
    assert att[0..|att|] == att;
  }

  lemma {:induction false} FlatHas(ss: seq<Vec>, h: nat, j: nat)
    requires h < |ss| && j < |ss[h]|
    ensures ss[h][j] in Flat(ss)
  {
    if h > 0 {
      FlatHas(ss[1..], h - 1, j);
    }
  }

  /** Scores actually ranked: the recent block boosted above the layer's maximum, when there is a
      recency window shorter than the prefix. */
  function Forced(ss: seq<Vec>, h: nat, recency: nat): (s: Vec)
    requires h < |ss| && ss[h] != []
    ensures |s| == |ss[h]|
  {
    if 0 < recency < |ss[h]| then Boosted(ss[h], recency, Top(ss, h)) else ss[h]
  }

  /** One more than the largest score of any head of the layer. */
  function Top(ss: seq<Vec>, h: nat): (m: real)
    requires h < |ss| && ss[h] != []
    ensures AllUnder(ss[h], m)
  {
    FlatHas(ss, h, 0);
    assert forall j :: 0 <= j < |ss[h]| ==> ss[h][j] < Max(Flat(ss)) + 1.0 by {
      forall j | 0 <= j < |ss[h]| ensures ss[h][j] < Max(Flat(ss)) + 1.0 { FlatHas(ss, h, j); }
    }
    Max(Flat(ss)) + 1.0
  }

  /** Positions a head holds afterwards: selected prefix tokens, then the whole window. */
  function KeptPositions(ss: seq<Vec>, h: nat, len: nat, budget: int, kernel: nat, recency: nat,
                         topk: TopK): (pos: seq<nat>)
    requires h < |ss| && 0 < |ss[h]| <= len
  {
    Select(Forced(ss, h, recency), budget, kernel, topk) + Range(|ss[h]|, len)
  }

  /** Every head keeps the budgeted number of prefix tokens and all of the window, in order. */
  lemma KeptShape(ss: seq<Vec>, h: nat, len: nat, budget: int, kernel: nat, recency: nat, topk: TopK)
    requires h < |ss| && 0 < |ss[h]| <= len && TopKLaw(topk)
    ensures var pos, k := KeptPositions(ss, h, len, budget, kernel, recency, topk), KeepCount(budget, |ss[h]|);
            && |pos| == k + (len - |ss[h]|)
            && (forall i, j :: 0 <= i < j < |pos| ==> pos[i] < pos[j])
            && (forall i :: 0 <= i < k ==> pos[i] < |ss[h]|)
            && pos[k..] == Range(|ss[h]|, len)
  {
    SelectCount(Forced(ss, h, recency), budget, kernel, topk);
  }

  /** The older prefix tokens a head keeps. */
  function KeptOlder(pos: seq<nat>, n: nat): (older: set<nat>)
    ensures forall i :: i in older <==> i in pos && i < n
  {
    set i | i in pos && i < n
  }

  lemma KeptAreChosen(ss: seq<Vec>, h: nat, len: nat, budget: int, kernel: nat, recency: nat, topk: TopK, i: nat)
    requires h < |ss| && 0 < |ss[h]| <= len && i < |ss[h]|
    ensures i in KeptPositions(ss, h, len, budget, kernel, recency, topk)
       <==> i in topk(Ranked(Forced(ss, h, recency), kernel), KeepCount(budget, |ss[h]|))
  {
    SortedHas(topk(Ranked(Forced(ss, h, recency), kernel), KeepCount(budget, |ss[h]|)), |ss[h]|, i);
  }

  /** When the lifted slots fit the kept count all of them are kept, the recent block with them; when they fill it,
      nothing else of the prefix is. */
  lemma RecentFirst(ss: seq<Vec>, h: nat, len: nat, budget: int, kernel: nat, recency: nat, topk: TopK, i: nat)
    requires h < |ss| && 0 < recency < |ss[h]| <= len && TopKLaw(topk) && i < |ss[h]|
    ensures var n, l := |ss[h]|, LiftedCount(|ss[h]|, recency, kernel);
            var pos, k := KeptPositions(ss, h, len, budget, kernel, recency, topk), KeepCount(budget, n);
            && (l <= k && Recent(i, n, l) ==> i in pos)
            && (l >= k && i in pos ==> Recent(i, n, l))
  {
    var n, l, k := |ss[h]|, LiftedCount(|ss[h]|, recency, kernel), KeepCount(budget, |ss[h]|);
    var b := Ranked(Forced(ss, h, recency), kernel);
    BoostSpreads(ss[h], recency, Top(ss, h), kernel);
    KeptAreChosen(ss, h, len, budget, kernel, recency, topk, i);
    assert IsTopK(b, k, topk(b, k));
    if l <= k && Recent(i, n, l) { LiftedKept(b, l, Top(ss, h), k, topk(b, k), i); }
    if l >= k && i in topk(b, k) { OnlyLifted(b, l, Top(ss, h), k, topk(b, k), i); }
  }

  /** Every recent token of the head is kept. */
  ghost predicate KeepsRecent(ss: seq<Vec>, h: nat, len: nat, budget: int, kernel: nat, recency: nat, topk: TopK)
    requires h < |ss| && 0 < recency < |ss[h]| <= len
  {
    forall i :: |ss[h]| - recency <= i < |ss[h]| ==> i in KeptPositions(ss, h, len, budget, kernel, recency, topk)
  }

  /** However ties are broken, the recent block is retained, exactly when the kept count has room for the block and
      for the slots that pooling lifts with it. */
  lemma RecentKeptIff(ss: seq<Vec>, h: nat, len: nat, budget: int, kernel: nat, recency: nat)
    requires h < |ss| && 0 < recency < |ss[h]| <= len
    ensures (forall topk :: TopKLaw(topk) ==> KeepsRecent(ss, h, len, budget, kernel, recency, topk))
       <==> LiftedCount(|ss[h]|, recency, kernel) <= KeepCount(budget, |ss[h]|)
  {
    if LiftedCount(|ss[h]|, recency, kernel) <= KeepCount(budget, |ss[h]|) {
      forall topk | TopKLaw(topk) ensures KeepsRecent(ss, h, len, budget, kernel, recency, topk) {
        forall i: nat | |ss[h]| - recency <= i < |ss[h]|
          ensures i in KeptPositions(ss, h, len, budget, kernel, recency, topk)
        {
          RecentFirst(ss, h, len, budget, kernel, recency, topk, i);
        }
      }
    } else {
      FirstBestIsLawful();
      NewestDropped(ss, h, len, budget, kernel, recency);
      assert !KeepsRecent(ss, h, len, budget, kernel, recency, FirstBest);
    }
  }

  /** Without that room the first-best choice drops the newest token of the prefix, and keeps a lifted one before the
      recent block if there is one. */
  lemma NewestDropped(ss: seq<Vec>, h: nat, len: nat, budget: int, kernel: nat, recency: nat)
    requires h < |ss| && 0 < recency < |ss[h]| <= len
    requires KeepCount(budget, |ss[h]|) < LiftedCount(|ss[h]|, recency, kernel)
    ensures var n, pos := |ss[h]|, KeptPositions(ss, h, len, budget, kernel, recency, FirstBest);
            n - 1 !in pos && n - LiftedCount(n, recency, kernel) in pos
  {
    var n, l, k := |ss[h]|, LiftedCount(|ss[h]|, recency, kernel), KeepCount(budget, |ss[h]|);
    BoostSpreads(ss[h], recency, Top(ss, h), kernel);
    OldestLifted(Ranked(Forced(ss, h, recency), kernel), l, Top(ss, h), k);
    OlderChosen(ss, h, len, budget, kernel, recency, FirstBest, n);
  }

  /** Three prefix tokens, a recency window of one, a kernel of three and one token to keep: whatever their scores, the
      window's token is dropped for its neighbour. */
  lemma PoolingDropsRecent(ss: seq<Vec>, h: nat, len: nat)
    requires h < |ss| && |ss[h]| == 3 <= len
    ensures var pos := KeptPositions(ss, h, len, 1, 3, 1, FirstBest);
            1 in pos && 2 !in pos
  {
    NewestDropped(ss, h, len, 1, 3, 1);
  }

  /** Of the slots below `n`, the kept positions are the chosen ones. */
  ghost predicate Picks(pos: seq<nat>, n: nat, chosen: set<nat>) {
    forall i: nat :: i < n ==> (i in pos <==> i in chosen)
  }

  ghost predicate SameBelow(a: Vec, b: Vec, n: nat) {
    n <= |a| == |b| && forall i :: 0 <= i < n ==> a[i] == b[i]
  }

  lemma OlderChosen(ss: seq<Vec>, h: nat, len: nat, budget: int, kernel: nat, recency: nat, topk: TopK, n: nat)
    requires h < |ss| && 0 < |ss[h]| <= len && n <= |ss[h]|
    ensures Picks(KeptPositions(ss, h, len, budget, kernel, recency, topk), n,
                  topk(Ranked(Forced(ss, h, recency), kernel), KeepCount(budget, |ss[h]|)))
  {
    forall i: nat | i < n { KeptAreChosen(ss, h, len, budget, kernel, recency, topk, i); }
  }

  lemma RanksBelow(ss: seq<Vec>, h: nat, kernel: nat, recency: nat)
    requires h < |ss| && 0 < recency < |ss[h]|
    ensures SameBelow(Ranked(Forced(ss, h, recency), kernel), Ranked(ss[h], kernel),
                      |ss[h]| - LiftedCount(|ss[h]|, recency, kernel))
  {
    BoostSpreads(ss[h], recency, Top(ss, h), kernel);
  }

  /** What the lifted slots leave over goes to the best of the others: none dropped outranks one kept, and no other
      choice of as many of them ranks higher. */
  lemma OlderAreBest(ss: seq<Vec>, h: nat, len: nat, budget: int, kernel: nat, recency: nat, topk: TopK,
                     n: nat, r: Vec, pos: seq<nat>, other: set<nat>)
    requires h < |ss| && 0 < recency < |ss[h]| <= len && TopKLaw(topk)
    requires n == |ss[h]| - LiftedCount(|ss[h]|, recency, kernel) && r == Ranked(ss[h], kernel)
    requires pos == KeptPositions(ss, h, len, budget, kernel, recency, topk)
    requires |other| == |KeptOlder(pos, n)| && forall i :: i in other ==> i < n
    ensures NoneBetter(r, n, KeptOlder(pos, n), other)
  {
    RanksBelow(ss, h, kernel, recency);
    OlderChosen(ss, h, len, budget, kernel, recency, topk, n);
    BestBelow(Ranked(Forced(ss, h, recency), kernel), r, n, KeepCount(budget, |ss[h]|), topk, pos, other);
  }

  /** Of the first `n` slots the chosen ones rank no lower than those left out, and sum to no less than the other
      choice. */
  ghost predicate NoneBetter(r: Vec, n: nat, chosen: set<nat>, other: set<nat>)
    requires n <= |r|
  {
    && SelSum(r, other) <= SelSum(r, chosen)
    && forall i, j :: i in chosen && 0 <= i < n && 0 <= j < n && j !in chosen ==> r[j] <= r[i]
  }

  /** The part of a top-k choice below `n` is a best choice of its size there. */
  lemma BestBelow(b: Vec, r: Vec, n: nat, k: nat, topk: TopK, pos: seq<nat>, other: set<nat>)
    requires TopKLaw(topk) && k <= |b| && SameBelow(b, r, n) && Picks(pos, n, topk(b, k))
    requires |other| == |KeptOlder(pos, n)| && forall i :: i in other ==> i < n
    ensures NoneBetter(r, n, KeptOlder(pos, n), other)
  {
    var kept, older := topk(b, k), KeptOlder(pos, n);
    assert IsTopK(b, k, kept);
    var recents := kept - older;
    assert kept == older + recents;
    assert |other + recents| == |other| + |recents| && |kept| == |older| + |recents|;
    TopKIsOptimal(b, k, kept, other + recents);
    SelUnion(b, other, recents);
    SelUnion(b, older, recents);
    SelAgree(b, r, other);
    SelAgree(b, r, older);
    forall i, j | i in older && 0 <= j < n && j !in older ensures r[j] <= r[i] { assert b[j] <= b[i]; }
  }

  // ---- what is kept, in terms of the attention entries ----

  /** What query heads `a` to `b - 1` pay the chosen ones of the first `n` tokens. */
  function ChosenPay(att: Attention, a: nat, b: nat, len: nat, sel: set<nat>, n: nat): real
    requires a <= b <= |att| && n <= len && AllShaped(att, len)
  {
    if n == 0 then 0.0
    else ChosenPay(att, a, b, len, sel, n - 1) + if n - 1 in sel then HeadsPay(att, a, b, len, n - 1) else 0.0
  }

  /** A score, times `g`, is what the heads pay the token. */
  ghost predicate ScoresPay(s: Vec, g: real, att: Attention, a: nat, b: nat, len: nat)
    requires a <= b <= |att| && |s| <= len && AllShaped(att, len)
  {
    forall j :: 0 <= j < |s| ==> s[j] * g == HeadsPay(att, a, b, len, j)
  }

  lemma {:induction false} ChosenScores(s: Vec, g: real, att: Attention, a: nat, b: nat, len: nat, sel: set<nat>,
                                        n: nat)
    requires a <= b <= |att| && n <= |s| <= len && AllShaped(att, len) && ScoresPay(s, g, att, a, b, len)
    ensures SelSum(s[..n], sel) * g == ChosenPay(att, a, b, len, sel, n)
  {
    if n > 0 {
      ChosenScores(s, g, att, a, b, len, sel, n - 1);
      assert s[..n][..n - 1] == s[..n - 1];
      var x := if n - 1 in sel then s[n - 1] else 0.0;
      Distribute(SelSum(s[..n - 1], sel), x, g);
    }
  }

  lemma Distribute(x: real, y: real, g: real)
    ensures (x + y) * g == x * g + y * g
  {}

  lemma LessMass(x: real, y: real, g: real, m: real, n: real)
    requires x <= y && g > 0.0 && x * g == m && y * g == n
    ensures m <= n
  {
    assert (y - x) * g >= 0.0;
  }

  lemma HeadsScorePay(att: Attention, nKv: nat, plen: nat, len: nat, h: nat)
    requires Groups(|att|, nKv) && AttentionOk(att, len) && h < nKv && plen <= len
    ensures FirstOf(|att|, nKv, h) <= FirstOf(|att|, nKv, h + 1) && (|att| / nKv) as real > 0.0
    ensures ScoresPay(LayerScores(att, nKv, plen, len)[h], (|att| / nKv) as real, att,
                      FirstOf(|att|, nKv, h), FirstOf(|att|, nKv, h + 1), len)
  {
    ShareBounds(nKv, |att|, h);
    assert |att| / nKv > 0 by { assert Share(att, nKv, h) != []; }
    forall j | 0 <= j < plen
      ensures LayerScores(att, nKv, plen, len)[h][j] * (|att| / nKv) as real
           == HeadsPay(att, FirstOf(|att|, nKv, h), FirstOf(|att|, nKv, h + 1), len, j)
    {
      ScoreIsMass(att, nKv, plen, len, h, j);
    }
  }

  /** Without pooling and without a recency window shorter than the prefix, a head keeps the prefix tokens its group of
      query heads pays most: no other choice of as many has a larger sum of attention entries. */
  lemma KeptIsHeaviest(att: Attention, nKv: nat, plen: nat, len: nat, h: nat, budget: int, kernel: nat, recency: nat,
                       topk: TopK, pos: seq<nat>, other: set<nat>)
    requires Groups(|att|, nKv) && AttentionOk(att, len) && h < nKv && 0 < plen <= len && TopKLaw(topk)
    requires kernel <= 1 && (recency == 0 || recency >= plen)
    requires pos == KeptPositions(LayerScores(att, nKv, plen, len), h, len, budget, kernel, recency, topk)
    requires |other| == |KeptOlder(pos, plen)| && forall i :: i in other ==> i < plen
    ensures var a, b := FirstOf(|att|, nKv, h), FirstOf(|att|, nKv, h + 1);
            a <= b && ChosenPay(att, a, b, len, other, plen) <= ChosenPay(att, a, b, len, KeptOlder(pos, plen), plen)
  {
    var ss := LayerScores(att, nKv, plen, len);
    OlderChosen(ss, h, len, budget, kernel, recency, topk, plen);
    BestBelow(ss[h], ss[h], plen, KeepCount(budget, plen), topk, pos, other);
    HeadsScorePay(att, nKv, plen, len, h);
    MoreScoreMorePay(ss[h], (|att| / nKv) as real, att, FirstOf(|att|, nKv, h), FirstOf(|att|, nKv, h + 1), len,
                     other, KeptOlder(pos, plen));
  }

  lemma MoreScoreMorePay(s: Vec, g: real, att: Attention, a: nat, b: nat, len: nat, less: set<nat>, more: set<nat>)
    requires a <= b <= |att| && |s| <= len && AllShaped(att, len) && ScoresPay(s, g, att, a, b, len) && g > 0.0
    requires SelSum(s, less) <= SelSum(s, more)
    ensures ChosenPay(att, a, b, len, less, |s|) <= ChosenPay(att, a, b, len, more, |s|)
  {
    var x := AllChosen(s, g, att, a, b, len, less);
    var y := AllChosen(s, g, att, a, b, len, more);
    LessMass(x, y, g, ChosenPay(att, a, b, len, less, |s|), ChosenPay(att, a, b, len, more, |s|));
  }

  lemma AllChosen(s: Vec, g: real, att: Attention, a: nat, b: nat, len: nat, sel: set<nat>) returns (x: real)
    requires a <= b <= |att| && |s| <= len && AllShaped(att, len) && ScoresPay(s, g, att, a, b, len)
    ensures x == SelSum(s, sel) && x * g == ChosenPay(att, a, b, len, sel, |s|)
  {
    ChosenScores(s, g, att, a, b, len, sel, |s|);
    x := SelSum(s[..|s|], sel);
    assert s[..|s|] == s;
  }

  /** One head: force the recent block in, select, keep the window. */
  method EvictHead(ss: seq<Vec>, h: nat, plen: nat, len: nat, budget: int, kernel: nat, recency: nat, topk: TopK)
    returns (pos: seq<nat>)
    requires h < |ss| && 0 < |ss[h]| == plen <= len
    ensures pos == KeptPositions(ss, h, len, budget, kernel, recency, topk)
  {
    var s := ss[h];
    if recency > 0 && plen > recency {
      s := Boosted(s, recency, Top(ss, h));
    }
    pos := Select(s, budget, kernel, topk) + Range(plen, len);
  }

  /** Positions every head of the layer holds afterwards. */
  function LayerKept(ss: seq<Vec>, plen: nat, len: nat, budget: int, kernel: nat, recency: nat,
                     topk: TopK): (heads: seq<seq<nat>>)
    requires 0 < plen <= len && forall h :: 0 <= h < |ss| ==> |ss[h]| == plen
    ensures |heads| == |ss|
    ensures forall h :: 0 <= h < |ss| ==> heads[h] == KeptPositions(ss, h, len, budget, kernel, recency, topk)
  {
    seq(|ss|, h requires 0 <= h < |ss| => KeptPositions(ss, h, len, budget, kernel, recency, topk))
  }

  /** One layer, head by head. */
  method EvictLayer(ss: seq<Vec>, plen: nat, len: nat, budget: int, kernel: nat, recency: nat, topk: TopK)
    returns (heads: seq<seq<nat>>)
    requires 0 < plen <= len && forall h :: 0 <= h < |ss| ==> |ss[h]| == plen
    ensures heads == LayerKept(ss, plen, len, budget, kernel, recency, topk)
  {
    heads := [];
    ghost var all := LayerKept(ss, plen, len, budget, kernel, recency, topk);
    for h := 0 to |ss|
      invariant heads == all[..h]
    {
      var pos := EvictHead(ss, h, plen, len, budget, kernel, recency, topk);
      heads := heads + [pos];
    }
  }

  // ---- the whole cache ----

  datatype Outcome =
    | EmptyPrefix
    | NoAttention
    | Unaligned
    | NoKvLayer
    | BadHeads
    | Done(plen: nat, layers: seq<Option<seq<seq<nat>>>>)

  /** Observation window actually used: at least one token, at most a quarter of the prompt. */
  function WindowSize(len: nat, window: nat): (w: nat)
    ensures w >= 1 && (len > 1 ==> w < len)
    ensures 1 <= window <= len / 4 ==> w == window
    ensures window > len / 4 >= 1 ==> w == len / 4
    ensures window == 0 || len < 4 ==> w == 1
  {
    var cap := if len / 4 < 1 then 1 else len / 4;
    var w := if window < cap then window else cap;
    if w < 1 then 1 else w
  }

  ghost predicate EntriesOk(kv: seq<bool>, atts: seq<Option<Attention>>, len: nat) {
    A.Align(kv, atts).Some? ==>
      forall l :: l in A.Align(kv, atts).value ==> AttentionOk(A.Align(kv, atts).value[l], len)
  }

  /** What a layer must hold afterwards: nothing without keys and values, otherwise the selection made
      from the attention entry matched to it. */
  ghost predicate LayerOk(byLayer: map<nat, Attention>, l: nat, layer: Option<seq<seq<nat>>>, plen: nat, len: nat,
                          nKv: nat, budget: int, kernel: nat, recency: nat, topk: TopK)
    requires 0 < plen <= len && (l in byLayer ==> AttentionOk(byLayer[l], len))
  {
    if l !in byLayer then layer == None
    else
      && Groups(|byLayer[l]|, nKv)
      && layer == Some(LayerKept(LayerScores(byLayer[l], nKv, plen, len), plen, len, budget, kernel, recency, topk))
  }

  ghost predicate Groupable(byLayer: map<nat, Attention>, l: nat, nKv: nat) {
    l in byLayer ==> Groups(|byLayer[l]|, nKv)
  }

  method EvictOne(byLayer: map<nat, Attention>, l: nat, plen: nat, len: nat, nKv: nat, budget: int, kernel: nat,
                  recency: nat, topk: TopK)
    returns (ok: bool, layer: Option<seq<seq<nat>>>)
    requires 0 < plen <= len && (l in byLayer ==> AttentionOk(byLayer[l], len))
    ensures ok <==> Groupable(byLayer, l, nKv)
    ensures ok ==> LayerOk(byLayer, l, layer, plen, len, nKv, budget, kernel, recency, topk)
  {
    if l !in byLayer {
      return true, None;
    }
    if !Groups(|byLayer[l]|, nKv) {
      return false, None;
    }
    var heads := EvictLayer(LayerScores(byLayer[l], nKv, plen, len), plen, len, budget, kernel, recency, topk);
    return true, Some(heads);
  }

  /** All layers in order; `nh` says how many key/value heads each has. */
  method EvictLayers(byLayer: map<nat, Attention>, nh: seq<nat>, plen: nat, len: nat, budget: int, kernel: nat,
                     recency: nat, topk: TopK)
    returns (ok: bool, layers: seq<Option<seq<seq<nat>>>>)
    requires 0 < plen <= len && forall l :: l in byLayer ==> AttentionOk(byLayer[l], len)
    ensures ok <==> forall l :: 0 <= l < |nh| ==> Groupable(byLayer, l, nh[l])
    ensures ok ==> |layers| == |nh| && forall l :: 0 <= l < |nh| ==>
      LayerOk(byLayer, l, layers[l], plen, len, nh[l], budget, kernel, recency, topk)
  {
    layers := [];
    for l := 0 to |nh|
      invariant |layers| == l
      invariant forall i :: 0 <= i < l ==> Groupable(byLayer, i, nh[i])
      invariant forall i :: 0 <= i < l ==>
        LayerOk(byLayer, i, layers[i], plen, len, nh[i], budget, kernel, recency, topk)
    {
      var one, layer := EvictOne(byLayer, l, plen, len, nh[l], budget, kernel, recency, topk);
      if !one {
        return false, layers;
      }
      layers := layers + [layer];
    }
    ok := true;
  }

  /** Evicts every layer that holds keys and values, refusing what cannot be aligned or grouped. */
  method EvictCache(len: nat, window: nat, kv: seq<bool>, atts: seq<Option<Attention>>, nh: seq<nat>,
                    budget: int, kernel: nat, recency: nat, topk: TopK) returns (r: Outcome)
    requires |nh| == |kv| && EntriesOk(kv, atts, len)
    ensures r.EmptyPrefix? <==> len <= 1
    ensures r.NoAttention? <==> len > 1 && atts == []
    ensures r.Unaligned? <==> len > 1 && atts != [] && |A.Present(atts)| != |A.KvLayers(kv)|
    ensures r.NoKvLayer? <==> len > 1 && atts != [] && A.Align(kv, atts).Some? && true !in kv
    ensures r.BadHeads? <==>
              len > 1 && atts != [] && A.Align(kv, atts).Some?
              && exists l :: 0 <= l < |kv| && !Groupable(A.Align(kv, atts).value, l, nh[l])
    ensures r.Done? ==>
              && atts != [] && r.plen == len - WindowSize(len, window) && 0 < r.plen <= len && A.Align(kv, atts).Some?
              && |r.layers| == |kv|
              && forall l :: 0 <= l < |kv| ==>
                   LayerOk(A.Align(kv, atts).value, l, r.layers[l], r.plen, len, nh[l], budget, kernel, recency, topk)
  {
    A.AlignInOrder(kv, atts);
    if len <= 1 {
      return EmptyPrefix;
    }
    if atts == [] {
      return NoAttention;
    }
    var plen := len - WindowSize(len, window);
    var aligned := A.Align(kv, atts);
    if aligned.None? {
      return Unaligned;
    }
    var ok, layers := EvictLayers(aligned.value, nh, plen, len, budget, kernel, recency, topk);
    if !ok {
      return BadHeads;
    }
    if forall l :: 0 <= l < |kv| ==> !kv[l] {
      return NoKvLayer;
    }
    r := Done(plen, layers);
  }
}
