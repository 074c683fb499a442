/** H2O's online heavy-hitter eviction during prefill: per key/value head, the surviving token
    positions and the attention each has accumulated. */
module H2O {
  import opened Nums
  import opened Seqs
  import opened Selection
  import opened Entries

  /** One key/value head: positions held, and the attention paid to each so far. */
  datatype Head = Head(pos: seq<nat>, acc: Vec)

  /** One prefill chunk as this head sees it: its token count and the attention rows of every
      query of every query head of the group, over the slots held plus the new ones. */
  datatype Chunk = Chunk(size: nat, rows: seq<Vec>)

  const FRESH := Head([], [])

  datatype Policy = Policy(budget: nat, recency: nat) {
    predicate Ok() { recency < budget }
  }

  function Tokens(run: seq<Chunk>): nat {
    if run == [] then 0 else Tokens(run[..|run| - 1]) + run[|run| - 1].size
  }

  /** Attention received by slot `j`, summed over the rows. */
  function Received(rows: seq<Vec>, j: nat): real
    requires forall r :: 0 <= r < |rows| ==> j < |rows[r]|
  {
    Sum(Column(rows, j))
  }

  function Grown(h: Head, n: nat, size: nat): seq<nat> {
    h.pos + Range(n, n + size)
  }

  ghost predicate ChunkFits(h: Head, c: Chunk) {
    |h.acc| == |h.pos| && Shaped(c.rows, |h.pos| + c.size)
  }

  /** Scores of all slots after the chunk, before eviction: carried score plus what the chunk's
      queries paid. */
  function Scores(h: Head, c: Chunk): (s: Vec)
    requires ChunkFits(h, c)
    ensures |s| == |h.pos| + c.size
    ensures forall j :: 0 <= j < |s| ==> s[j] == Received(c.rows, j) + if j < |h.acc| then h.acc[j] else 0.0
  {
    seq(|h.pos| + c.size, j requires 0 <= j < |h.pos| + c.size =>
      Received(c.rows, j) + if j < |h.acc| then h.acc[j] else 0.0)
  }

  /** Slots kept when the cache is over budget: the best older ones, then the newest. */
  function KeptSlots(s: Vec, p: Policy, topk: TopK): (idx: seq<nat>)
    requires p.Ok() && |s| > p.budget
    ensures AllBelow(idx, |s|)
  {
    var nOld := |s| - p.recency;
    Sorted(topk(s[..nOld], p.budget - p.recency), nOld) + Range(nOld, |s|)
  }

  function Step(h: Head, n: nat, c: Chunk, p: Policy, topk: TopK): (r: Head)
    requires p.Ok() && ChunkFits(h, c)
    ensures |r.acc| == |r.pos|
  {
    var g, s := Grown(h, n, c.size), Scores(h, c);
    if |s| > p.budget then
      var idx := KeptSlots(s, p, topk);
      Head(Gather(g, idx), Gather(s, idx))
    else Head(g, s)
  }

  ghost predicate RunFits(run: seq<Chunk>, p: Policy) {
    p.Ok() && forall k :: 0 <= k < |run| ==> Shaped(run[k].rows, Least(Tokens(run[..k]), p.budget) + run[k].size)
  }

  // ---- what every chunk keeps ----

  ghost predicate Increasing(s: seq<nat>) {
    forall i, j :: 0 <= i < j < |s| ==> s[i] < s[j]
  }

  ghost predicate AllBelow(s: seq<nat>, n: nat) {
    forall i :: 0 <= i < |s| ==> s[i] < n
  }

  /** The last `min(r, n)` positions held are the newest ones. */
  ghost predicate Newest(s: seq<nat>, n: nat, r: nat) {
    var m := Least(r, n);
    m <= |s| && forall j :: |s| - m <= j < |s| ==> s[j] == n - |s| + j
  }

  /** After `n` tokens: `min(n, budget)` positions in strictly increasing order, the newest
      `min(recency, n)` among them, each with a score. */
  ghost predicate Held(h: Head, n: nat, p: Policy) {
    && |h.pos| == |h.acc| == Least(n, p.budget)
    && Increasing(h.pos) && AllBelow(h.pos, n)
    && Newest(h.pos, n, p.recency)
  }

  lemma NewestGrown(s: seq<nat>, n: nat, size: nat, r: nat)
    requires Newest(s, n, r)
    ensures Newest(s + Range(n, n + size), n + size, r)
  {
    var g := s + Range(n, n + size);
    forall j | |g| - Least(r, n + size) <= j < |g| ensures g[j] == n + size - |g| + j {
      if j < |s| { assert g[j] == s[j]; }
    }
  }

  lemma GatherIncreasing(g: seq<nat>, idx: seq<nat>)
    requires Increasing(g) && Increasing(idx) && AllBelow(idx, |g|)
    ensures Increasing(Gather(g, idx))
  {}

  /** Over budget, exactly `budget` slots are kept, in order, ending with the `recency` newest. */
  ghost predicate SlotsOk(idx: seq<nat>, len: nat, p: Policy) {
    && p.recency <= p.budget == |idx| && p.recency <= len && Increasing(idx) && AllBelow(idx, len)
    && idx[p.budget - p.recency..] == Range(len - p.recency, len)
  }

  lemma KeptShape(s: Vec, p: Policy, topk: TopK)
    requires p.Ok() && TopKLaw(topk) && |s| > p.budget
    ensures SlotsOk(KeptSlots(s, p, topk), |s|, p)
  {
    var nOld, k := |s| - p.recency, p.budget - p.recency;
    var sel := topk(s[..nOld], k);
    assert IsTopK(s[..nOld], k, sel);
    SortedLength(sel, nOld);
  }

  lemma KeepNewest(g: seq<nat>, idx: seq<nat>, n: nat, p: Policy)
    requires p.recency <= n && Newest(g, n, p.recency) && SlotsOk(idx, |g|, p)
    ensures Newest(Gather(g, idx), n, p.recency)
  {
    var w, b := Gather(g, idx), p.budget - p.recency;
    forall j | b <= j < p.budget ensures w[j] == n - |w| + j {
      assert idx[j] == idx[b..][j - b];
    }
  }

  ghost predicate GrownOk(g: seq<nat>, n: nat, p: Policy) {
    Increasing(g) && AllBelow(g, n) && Newest(g, n, p.recency)
  }

  lemma GrownShape(h: Head, n: nat, size: nat, p: Policy)
    requires p.Ok() && Held(h, n, p)
    ensures GrownOk(Grown(h, n, size), n + size, p)
  {
    NewestGrown(h.pos, n, size, p.recency);
  }

  lemma EvictedHeld(g: seq<nat>, s: Vec, idx: seq<nat>, n: nat, p: Policy)
    requires p.Ok() && p.budget < |g| == |s| <= n && GrownOk(g, n, p) && SlotsOk(idx, |g|, p)
    ensures Held(Head(Gather(g, idx), Gather(s, idx)), n, p)
  {
    GatherIncreasing(g, idx);
    KeepNewest(g, idx, n, p);
  }

  lemma StepHeld(h: Head, n: nat, c: Chunk, p: Policy, topk: TopK)
    requires p.Ok() && TopKLaw(topk) && Held(h, n, p) && ChunkFits(h, c)
    ensures Held(Step(h, n, c, p, topk), n + c.size, p)
  {
    GrownShape(h, n, c.size, p);
    if |h.pos| + c.size > p.budget {
      KeptShape(Scores(h, c), p, topk);
      EvictedHeld(Grown(h, n, c.size), Scores(h, c), KeptSlots(Scores(h, c), p, topk), n + c.size, p);
    }
  }

  lemma FreshHeld(p: Policy)
    ensures Held(FRESH, 0, p)
  {
    assert Range(0, 0) == [];
  }

  function Run(run: seq<Chunk>, p: Policy, topk: TopK): (h: Head)
    requires RunFits(run, p) && TopKLaw(topk)
    ensures Held(h, Tokens(run), p)
  {
    if run == [] then FreshHeld(p); FRESH
    else
      var k := |run| - 1;
      assert RunFits(run[..k], p) by { RunPrefix(run, p); }
      var h := Run(run[..k], p, topk);
      StepHeld(h, Tokens(run[..k]), run[k], p, topk);
      assert Tokens(run) == Tokens(run[..k]) + run[k].size;
      Step(h, Tokens(run[..k]), run[k], p, topk)
  }

  lemma RunPrefix(run: seq<Chunk>, p: Policy)
    requires RunFits(run, p) && run != []
    ensures RunFits(run[..|run| - 1], p)
  {
    var q := run[..|run| - 1];
    forall k | 0 <= k < |q| ensures Shaped(q[k].rows, Least(Tokens(q[..k]), p.budget) + q[k].size) {
      assert q[..k] == run[..k];
    }
  }

  // ---- what a score means ----

  lemma {:induction false} SlotUnique(g: seq<nat>, j: nat)
    requires Increasing(g) && j < |g|
    ensures IndexOf(g, g[j]) == j
  {
    var k := IndexOf(g, g[j]);
  }

  /** Attention the rows of one chunk pay to position `x`, `g` being the positions in the cache: nothing when it is not
      among them. */
  function PaidIn(g: seq<nat>, rows: seq<Vec>, x: nat): real
    requires Shaped(rows, |g|)
  {
    if x in g then PaidTo(rows, IndexOf(g, x)) else 0.0
  }

  /** Attention paid to position `x` by every query of the run while `x` was in the cache. */
  function Paid(run: seq<Chunk>, p: Policy, topk: TopK, x: nat): real
    requires RunFits(run, p) && TopKLaw(topk)
  {
    if run == [] then 0.0
    else
      var k := |run| - 1;
      RunPrefix(run, p);
      var n := Tokens(run[..k]);
      Paid(run[..k], p, topk, x) + PaidIn(Run(run[..k], p, topk).pos + Range(n, n + run[k].size), run[k].rows, x)
  }

  lemma PaidUnfold(run: seq<Chunk>, p: Policy, topk: TopK, x: nat)
    requires RunFits(run, p) && TopKLaw(topk) && run != []
    ensures var prev, c := run[..|run| - 1], run[|run| - 1];
            && RunFits(prev, p) && ChunkFits(Run(prev, p, topk), c)
            && Paid(run, p, topk, x)
            == Paid(prev, p, topk, x) + PaidIn(Grown(Run(prev, p, topk), Tokens(prev), c.size), c.rows, x)
  {
    RunPrefix(run, p);
  }

  lemma {:induction false} NotYetPaid(run: seq<Chunk>, p: Policy, topk: TopK, x: nat)
    requires RunFits(run, p) && TopKLaw(topk) && x >= Tokens(run)
    ensures Paid(run, p, topk, x) == 0.0
  {
    if run != [] {
      RunPrefix(run, p);
      NotYetPaid(run[..|run| - 1], p, topk, x);
    }
  }

  /** A slot's score after a chunk is its position's carried score plus what the chunk paid it. */
  lemma ScoreGrows(h: Head, n: nat, c: Chunk, p: Policy, j: nat)
    requires p.Ok() && Held(h, n, p) && ChunkFits(h, c) && j < |h.pos| + c.size
    ensures var g := Grown(h, n, c.size);
            && Scores(h, c)[j] == PaidIn(g, c.rows, g[j]) + (if j < |h.pos| then h.acc[j] else 0.0)
            && (j >= |h.pos| ==> g[j] >= n)
  {
    GrownShape(h, n, c.size, p);
    SlotUnique(Grown(h, n, c.size), j);
    ColumnPays(c.rows, j);
  }

  /** Every survivor's score is the attention paid to it by every query since it arrived. */
  lemma {:induction false} ScoreIsPaid(run: seq<Chunk>, p: Policy, topk: TopK, i: nat)
    requires RunFits(run, p) && TopKLaw(topk) && i < |Run(run, p, topk).pos|
    ensures var h := Run(run, p, topk); h.acc[i] == Paid(run, p, topk, h.pos[i])
    decreases |run|, 1
  {
    if run != [] {
      var j := SlotBefore(run, p, topk, i);
      GrownIsPaid(run, p, topk, j);
    }
  }

  /** Before eviction, too, every slot's score is what has been paid to its position. */
  lemma {:induction false} GrownIsPaid(run: seq<Chunk>, p: Policy, topk: TopK, j: nat)
    requires RunFits(run, p) && TopKLaw(topk) && run != [] && RunFits(run[..|run| - 1], p)
    requires j < |Run(run[..|run| - 1], p, topk).pos| + run[|run| - 1].size
    ensures var h, n, c := Run(run[..|run| - 1], p, topk), Tokens(run[..|run| - 1]), run[|run| - 1];
            ChunkFits(h, c) && Scores(h, c)[j] == Paid(run, p, topk, Grown(h, n, c.size)[j])
    decreases |run|, 0
  {
    var prev, c := run[..|run| - 1], run[|run| - 1];
    var h, n := Run(prev, p, topk), Tokens(prev);
    PaidUnfold(run, p, topk, Grown(h, n, c.size)[j]);
    ScoreGrows(h, n, c, p, j);
    if j < |h.pos| {
      ScoreIsPaid(prev, p, topk, j);
    } else {
      NotYetPaid(prev, p, topk, Grown(h, n, c.size)[j]);
    }
  }

  /** The slot a survivor was in before the last eviction. */
  lemma SlotBefore(run: seq<Chunk>, p: Policy, topk: TopK, i: nat) returns (j: nat)
    requires RunFits(run, p) && TopKLaw(topk) && run != [] && i < |Run(run, p, topk).pos|
    ensures RunFits(run[..|run| - 1], p)
    ensures var h, n, c := Run(run[..|run| - 1], p, topk), Tokens(run[..|run| - 1]), run[|run| - 1];
            && ChunkFits(h, c) && j < |h.pos| + c.size
            && Grown(h, n, c.size)[j] == Run(run, p, topk).pos[i] && Scores(h, c)[j] == Run(run, p, topk).acc[i]
  {
    RunUnfold(run, p, topk);
    j := SlotOf(Run(run[..|run| - 1], p, topk), Tokens(run[..|run| - 1]), run[|run| - 1], p, topk, i);
  }

  lemma SlotOf(h: Head, n: nat, c: Chunk, p: Policy, topk: TopK, i: nat) returns (j: nat)
    requires p.Ok() && ChunkFits(h, c) && i < |Step(h, n, c, p, topk).pos|
    ensures j < |h.pos| + c.size
    ensures Grown(h, n, c.size)[j] == Step(h, n, c, p, topk).pos[i] && Scores(h, c)[j] == Step(h, n, c, p, topk).acc[i]
  {
    j := if |h.pos| + c.size > p.budget then KeptSlots(Scores(h, c), p, topk)[i] else i;
  }

  /** A position held after a chunk was held before it, if it had arrived. */
  lemma HeldBefore(run: seq<Chunk>, p: Policy, topk: TopK, x: nat)
    requires RunFits(run, p) && TopKLaw(topk) && run != [] && x in Run(run, p, topk).pos
    ensures RunFits(run[..|run| - 1], p)
    ensures x < Tokens(run[..|run| - 1]) ==> x in Run(run[..|run| - 1], p, topk).pos
  {
    RunPrefix(run, p);
    var k := |run| - 1;
    var h, n := Run(run[..k], p, topk), Tokens(run[..k]);
    assert x in Grown(h, n, run[k].size);
  }

  lemma {:induction false} TokensGrow(run: seq<Chunk>, m: nat)
    requires m <= |run|
    ensures Tokens(run[..m]) <= Tokens(run)
  {
    if m < |run| {
      TokensGrow(run[..|run| - 1], m);
      assert run[..|run| - 1][..m] == run[..m];
    } else {
      assert run[..m] == run;
    }
  }

  /** A survivor was held all along: after every chunk since the one it arrived in. */
  lemma {:induction false} SurvivorsNeverLeft(run: seq<Chunk>, p: Policy, topk: TopK, x: nat, m: nat)
    requires RunFits(run, p) && TopKLaw(topk) && x in Run(run, p, topk).pos
    requires m <= |run| && x < Tokens(run[..m])
    ensures RunFits(run[..m], p) && x in Run(run[..m], p, topk).pos
  {
    if m == |run| {
      assert run[..m] == run;
    } else {
      var prev := run[..|run| - 1];
      assert prev[..m] == run[..m];
      TokensGrow(prev, m);
      HeldBefore(run, p, topk, x);
      SurvivorsNeverLeft(prev, p, topk, x, m);
    }
  }

  // ---- conservation ----

  /** The slots dropped when a chunk puts the cache over budget. */
  ghost function Dropped(s: Vec, p: Policy, topk: TopK): set<nat>
    requires p.Ok()
  {
    if |s| > p.budget then Below(|s| - p.recency) - topk(s[..|s| - p.recency], p.budget - p.recency) else {}
  }

  /** Score mass lost to eviction over the run. */
  ghost function Evicted(run: seq<Chunk>, p: Policy, topk: TopK): real
    requires RunFits(run, p) && TopKLaw(topk)
  {
    if run == [] then 0.0
    else
      var k := |run| - 1;
      RunPrefix(run, p);
      var s := Scores(Run(run[..k], p, topk), run[k]);
      Evicted(run[..k], p, topk) + SelSum(s, Dropped(s, p, topk))
  }

  /** Kept and dropped slots share out the whole score. */
  lemma KeptAndDropped(s: Vec, p: Policy, topk: TopK)
    requires p.Ok() && TopKLaw(topk) && |s| > p.budget
    ensures Sum(Gather(s, KeptSlots(s, p, topk))) + SelSum(s, Dropped(s, p, topk)) == Sum(s)
  {
    var n := |s| - p.recency;
    var sel := topk(s[..n], p.budget - p.recency);
    KeptIs(s, p, topk, sel, n);
    ShareOut(s, sel, n);
  }

  lemma KeptIs(s: Vec, p: Policy, topk: TopK, sel: set<nat>, n: nat)
    requires p.Ok() && |s| > p.budget && n == |s| - p.recency && sel == topk(s[..n], p.budget - p.recency)
    ensures KeptSlots(s, p, topk) == Sorted(sel, n) + Range(n, |s|)
    ensures Dropped(s, p, topk) == Below(n) - sel
  {}

  lemma ShareOut(s: Vec, sel: set<nat>, n: nat)
    requires n <= |s|
    ensures Sum(Gather(s, Sorted(sel, n) + Range(n, |s|))) + SelSum(s, Below(n) - sel) == Sum(s)
  {
    GatherParts(s, sel, n);
    SelSplit(s[..n], sel);
    SelPrefix(s, n, Below(n) - sel);
  }

  /** Gathering chosen older slots and then all newer ones sums to the two parts. */
  lemma GatherParts(s: Vec, sel: set<nat>, n: nat)
    requires n <= |s|
    ensures Sum(Gather(s, Sorted(sel, n) + Range(n, |s|))) == SelSum(s[..n], sel) + Sum(s) - Sum(s[..n])
  {
    assert s[..n] + s[n..] == s;
    SumAppend(s[..n], s[n..]);
    GatherSum(s, sel, n);
    GatherTail(s, Sorted(sel, n), n);
    SumAppend(Gather(s, Sorted(sel, n)), s[n..]);
  }

  lemma GatherTail(s: Vec, idx: seq<nat>, n: nat)
    requires n <= |s| && AllBelow(idx, |s|)
    ensures Gather(s, idx + Range(n, |s|)) == Gather(s, idx) + s[n..]
  {}

  lemma {:induction false} SelPrefix(s: Vec, n: nat, sel: set<nat>)
    requires n <= |s| && forall i :: i in sel ==> i < n
    ensures SelSum(s, sel) == SelSum(s[..n], sel)
    decreases |s|
  {
    if n < |s| {
      SelPrefix(s[..|s| - 1], n, sel);
      assert s[..|s| - 1][..n] == s[..n];
    } else {
      assert s[..n] == s;
    }
  }

  function ColumnSums(rows: seq<Vec>, w: nat): (v: Vec)
    requires Shaped(rows, w)
    ensures |v| == w && forall j :: 0 <= j < w ==> v[j] == Received(rows, j)
  {
    seq(w, j requires 0 <= j < w => Received(rows, j))
  }

  lemma {:induction false} SumPointwise(a: Vec, b: Vec, c: Vec)
    requires |a| == |b| == |c| && forall i :: 0 <= i < |a| ==> c[i] == a[i] + b[i]
    ensures Sum(c) == Sum(a) + Sum(b)
  {
    if a != [] { SumPointwise(a[1..], b[1..], c[1..]); }
  }

  lemma {:induction false} SumZeros(a: Vec)
    requires forall i :: 0 <= i < |a| ==> a[i] == 0.0
    ensures Sum(a) == 0.0
  {
    if a != [] { SumZeros(a[1..]); }
  }

  /** Attention handed out by `rows` whose entries sum to one is their number. */
  lemma {:induction false} RowsHandOut(rows: seq<Vec>, w: nat)
    requires Shaped(rows, w) && forall r :: 0 <= r < |rows| ==> Sum(rows[r]) == 1.0
    ensures Sum(ColumnSums(rows, w)) == |rows| as real
  {
    var v := ColumnSums(rows, w);
    if rows == [] {
      assert forall j :: 0 <= j < w ==> Column(rows, j) == [];
      SumZeros(v);
    } else {
      RowsHandOut(rows[1..], w);
      forall j | 0 <= j < w ensures v[j] == rows[0][j] + ColumnSums(rows[1..], w)[j] {
        assert Column(rows, j)[1..] == Column(rows[1..], j);
      }
      SumPointwise(rows[0], ColumnSums(rows[1..], w), v);
    }
  }

  lemma ScoresTotal(h: Head, c: Chunk)
    requires ChunkFits(h, c) && Normalised(c.rows)
    ensures Sum(Scores(h, c)) == Sum(h.acc) + |c.rows| as real
  {
    var w := |h.pos| + c.size;
    var zeros := seq(c.size, _ => 0.0);
    RowsHandOut(c.rows, w);
    SumZeros(zeros);
    SumAppend(h.acc, zeros);
    SumPointwise(ColumnSums(c.rows, w), h.acc + zeros, Scores(h, c));
  }

  /** Every softmax row hands out one unit of attention. */
  ghost predicate Normalised(rows: seq<Vec>) {
    forall r :: 0 <= r < |rows| ==> Sum(rows[r]) == 1.0
  }

  ghost predicate AllNormalised(run: seq<Chunk>) {
    forall k :: 0 <= k < |run| ==> Normalised(run[k].rows)
  }

  /** Attention rows seen over the run, and their number when every chunk brings one row per query
      of each of `group` query heads. */
  function Rows(run: seq<Chunk>): nat {
    if run == [] then 0 else Rows(run[..|run| - 1]) + |run[|run| - 1].rows|
  }

  lemma {:induction false} RowsPerQuery(run: seq<Chunk>, group: nat)
    requires forall k :: 0 <= k < |run| ==> |run[k].rows| == group * run[k].size
    ensures Rows(run) == group * Tokens(run)
  {
    if run != [] {
      RowsPerQuery(run[..|run| - 1], group);
    }
  }

  /** Score mass ever handed out: what is held plus what was evicted. */
  ghost function Mass(run: seq<Chunk>, p: Policy, topk: TopK): real
    requires RunFits(run, p) && TopKLaw(topk)
  {
    Sum(Run(run, p, topk).acc) + Evicted(run, p, topk)
  }

  lemma MassStep(run: seq<Chunk>, p: Policy, topk: TopK)
    requires RunFits(run, p) && TopKLaw(topk) && run != []
    requires Normalised(run[|run| - 1].rows)
    ensures RunFits(run[..|run| - 1], p)
    ensures Mass(run, p, topk) == Mass(run[..|run| - 1], p, topk) + |run[|run| - 1].rows| as real
  {
    var prev, c := run[..|run| - 1], run[|run| - 1];
    RunUnfold(run, p, topk);
    StepConserves(Run(prev, p, topk), Tokens(prev), c, p, topk);
  }

  lemma {:induction false} MassIsRows(run: seq<Chunk>, p: Policy, topk: TopK)
    requires RunFits(run, p) && TopKLaw(topk) && AllNormalised(run)
    ensures Mass(run, p, topk) == Rows(run) as real
  {
    if run == [] {
      assert Sum(FRESH.acc) == 0.0;
    } else {
      MassStep(run, p, topk);
      MassIsRows(run[..|run| - 1], p, topk);
    }
  }

  /** Conservation: scores held plus mass evicted is query heads per group times queries seen. */
  lemma AttentionConserved(run: seq<Chunk>, p: Policy, topk: TopK, group: nat)
    requires RunFits(run, p) && TopKLaw(topk) && AllNormalised(run)
    requires forall k :: 0 <= k < |run| ==> |run[k].rows| == group * run[k].size
    ensures Sum(Run(run, p, topk).acc) + Evicted(run, p, topk) == (group * Tokens(run)) as real
  {
    MassIsRows(run, p, topk);
    RowsPerQuery(run, group);
  }

  /** The last step of a run, spelled out. */
  lemma RunUnfold(run: seq<Chunk>, p: Policy, topk: TopK)
    requires RunFits(run, p) && TopKLaw(topk) && run != []
    ensures var prev, c := run[..|run| - 1], run[|run| - 1];
            && RunFits(prev, p) && Tokens(run) == Tokens(prev) + c.size
            && ChunkFits(Run(prev, p, topk), c)
            && Run(run, p, topk) == Step(Run(prev, p, topk), Tokens(prev), c, p, topk)
            && Evicted(run, p, topk) == Evicted(prev, p, topk)
               + SelSum(Scores(Run(prev, p, topk), c), Dropped(Scores(Run(prev, p, topk), c), p, topk))
  {
    RunPrefix(run, p);
  }

  /** One chunk: what is held afterwards plus what is dropped is what was held plus the chunk's
      attention. */
  lemma StepConserves(h: Head, n: nat, c: Chunk, p: Policy, topk: TopK)
    requires p.Ok() && TopKLaw(topk) && ChunkFits(h, c)
    requires Normalised(c.rows)
    ensures Sum(Step(h, n, c, p, topk).acc) + SelSum(Scores(h, c), Dropped(Scores(h, c), p, topk))
         == Sum(h.acc) + |c.rows| as real
  {
    ScoresTotal(h, c);
    if |Scores(h, c)| > p.budget {
      KeptAndDropped(Scores(h, c), p, topk);
    } else {
      NothingChosen(Scores(h, c));
    }
  }

  lemma {:induction false} NothingChosen(s: Vec)
    ensures SelSum(s, {}) == 0.0
  {
    if s != [] { NothingChosen(s[..|s| - 1]); }
  }

  /** Eviction is greedy: no dropped slot is among the newest or outscores a kept older one. */
  lemma EvictionIsGreedy(s: Vec, p: Policy, topk: TopK, i: nat, j: nat)
    requires p.Ok() && TopKLaw(topk) && |s| > p.budget && j in Dropped(s, p, topk)
    requires i in KeptSlots(s, p, topk) && i < |s| - p.recency
    ensures j < |s| - p.recency && s[j] <= s[i]
  {
    var nOld := |s| - p.recency;
    var older := s[..nOld];
    var sel := topk(older, p.budget - p.recency);
    assert IsTopK(older, p.budget - p.recency, sel);
    assert i in sel;
    assert older[j] <= older[i];
  }

  /** Eviction is optimal: no other choice of as many older slots keeps more score. */
  lemma EvictionIsOptimal(s: Vec, p: Policy, topk: TopK, other: set<nat>)
    requires p.Ok() && TopKLaw(topk) && |s| > p.budget
    requires |other| == p.budget - p.recency && forall i :: i in other ==> i < |s| - p.recency
    ensures SelSum(s, other) <= SelSum(s, Below(|s| - p.recency) - Dropped(s, p, topk))
  {
    var older, k := s[..|s| - p.recency], p.budget - p.recency;
    OlderKept(s, p, topk);
    BestOfOlder(s, older, k, topk, other);
  }

  lemma OlderKept(s: Vec, p: Policy, topk: TopK)
    requires p.Ok() && TopKLaw(topk) && |s| > p.budget
    ensures Below(|s| - p.recency) - Dropped(s, p, topk) == topk(s[..|s| - p.recency], p.budget - p.recency)
  {
    var older, k := s[..|s| - p.recency], p.budget - p.recency;
    assert IsTopK(older, k, topk(older, k));
    assert forall i :: i in topk(older, k) ==> i in Below(|older|);
  }

  lemma BestOfOlder(s: Vec, older: Vec, k: nat, topk: TopK, other: set<nat>)
    requires older <= s && k <= |older| && TopKLaw(topk) && |other| == k && forall i :: i in other ==> i < |older|
    ensures SelSum(s, other) <= SelSum(s, topk(older, k))
  {
    var sel := topk(older, k);
    assert IsTopK(older, k, sel) && s[..|older|] == older;
    TopKIsOptimal(older, k, sel, other);
    SelPrefix(s, |older|, other);
    SelPrefix(s, |older|, sel);
  }

  // ---- what a run evicts ----

  /** The positions in the cache while the last chunk of a run is read. */
  function Cached(run: seq<Chunk>, p: Policy, topk: TopK): seq<nat>
    requires RunFits(run, p) && TopKLaw(topk) && run != [] && RunFits(run[..|run| - 1], p)
  {
    Run(run[..|run| - 1], p, topk).pos + Range(Tokens(run[..|run| - 1]), Tokens(run))
  }

  /** Heavy hitters stay: whatever the last chunk of a run drops is older than the recent tokens, and has been paid no
      more attention over the whole run than any older token that is kept. */
  lemma HeavyHittersStay(run: seq<Chunk>, p: Policy, topk: TopK, x: nat, y: nat)
    requires RunFits(run, p) && TopKLaw(topk) && run != [] && RunFits(run[..|run| - 1], p)
    requires y in Cached(run, p, topk) && y !in Run(run, p, topk).pos
    requires x in Run(run, p, topk).pos && x + p.recency < Tokens(run)
    ensures y + p.recency < Tokens(run) && Paid(run, p, topk, y) <= Paid(run, p, topk, x)
  {
    var i := SlotBefore(run, p, topk, IndexOf(Run(run, p, topk).pos, x));
    var j := IndexOf(Cached(run, p, topk), y);
    CachedIs(run, p, topk);
    GrownIsPaid(run, p, topk, j);
    GrownIsPaid(run, p, topk, i);
    DroppedSlot(Run(run[..|run| - 1], p, topk), Tokens(run[..|run| - 1]), run[|run| - 1], p, topk, i, j);
  }

  lemma CachedIs(run: seq<Chunk>, p: Policy, topk: TopK)
    requires RunFits(run, p) && TopKLaw(topk) && run != [] && RunFits(run[..|run| - 1], p)
    ensures var h, n, c := Run(run[..|run| - 1], p, topk), Tokens(run[..|run| - 1]), run[|run| - 1];
            && Cached(run, p, topk) == Grown(h, n, c.size) && Tokens(run) == n + c.size
            && ChunkFits(h, c) && Run(run, p, topk) == Step(h, n, c, p, topk)
  {
    RunUnfold(run, p, topk);
  }

  /** A slot whose position one step drops, and an older one it keeps. */
  lemma DroppedSlot(h: Head, n: nat, c: Chunk, p: Policy, topk: TopK, i: nat, j: nat)
    requires p.Ok() && TopKLaw(topk) && Held(h, n, p) && ChunkFits(h, c)
    requires i < |h.pos| + c.size && j < |h.pos| + c.size
    requires var g, after := Grown(h, n, c.size), Step(h, n, c, p, topk);
             g[i] in after.pos && g[j] !in after.pos && g[i] + p.recency < n + c.size
    ensures Grown(h, n, c.size)[j] + p.recency < n + c.size && Scores(h, c)[j] <= Scores(h, c)[i]
  {
    var g, s := Grown(h, n, c.size), Scores(h, c);
    GrownShape(h, n, c.size, p);
    assert |s| > p.budget;
    var idx := KeptSlots(s, p, topk);
    KeptShape(s, p, topk);
    SlotKept(g, idx, i);
    if j in idx {
      GatherHas(g, idx, j);
    } else {
      NotNewest(g, n + c.size, p.recency, i);
      OlderOnly(s, p, topk, j);
      EvictionIsGreedy(s, p, topk, i, j);
      OlderSlot(g, n + c.size, p.recency, j);
    }
  }

  lemma SlotKept(g: seq<nat>, idx: seq<nat>, i: nat)
    requires Increasing(g) && AllBelow(idx, |g|) && i < |g| && g[i] in Gather(g, idx)
    ensures i in idx
  {
    var l :| 0 <= l < |idx| && Gather(g, idx)[l] == g[i];
    SlotUnique(g, i);
    SlotUnique(g, idx[l]);
  }

  lemma GatherHas(g: seq<nat>, idx: seq<nat>, j: nat)
    requires AllBelow(idx, |g|) && j in idx
    ensures g[j] in Gather(g, idx)
  {
    var l :| 0 <= l < |idx| && idx[l] == j;
    assert Gather(g, idx)[l] == g[j];
  }

  /** A slot holding no recent position lies before the newest ones, and the other way round. */
  lemma NotNewest(g: seq<nat>, n: nat, r: nat, i: nat)
    requires Newest(g, n, r) && i < |g| && r <= n && g[i] + r < n
    ensures i + r < |g|
  {
    if i + r >= |g| { NewestAt(g, n, r, i); }
  }

  lemma NewestAt(g: seq<nat>, n: nat, r: nat, i: nat)
    requires Newest(g, n, r) && i < |g| <= i + r && r <= n
    ensures g[i] + r >= n
  {}

  lemma OlderSlot(g: seq<nat>, n: nat, r: nat, j: nat)
    requires Increasing(g) && AllBelow(g, n) && Newest(g, n, r) && j + r < |g| && r <= n
    ensures g[j] + r < n
  {
    if r > 0 { assert g[j] < g[|g| - r]; }
  }

  lemma OlderOnly(s: Vec, p: Policy, topk: TopK, j: nat)
    requires p.Ok() && TopKLaw(topk) && |s| > p.budget && j < |s| && j !in KeptSlots(s, p, topk)
    ensures j in Dropped(s, p, topk)
  {
    var n := |s| - p.recency;
    var sel := topk(s[..n], p.budget - p.recency);
    if j >= n {
      NewestKept(s, p, topk, j);
    } else {
      SortedHas(sel, n, j);
      InFirst(Sorted(sel, n), Range(n, |s|), j);
    }
  }

  lemma NewestKept(s: Vec, p: Policy, topk: TopK, j: nat)
    requires p.Ok() && |s| > p.budget && |s| - p.recency <= j < |s|
    ensures j in KeptSlots(s, p, topk)
  {
    var n := |s| - p.recency;
    var older := Sorted(topk(s[..n], p.budget - p.recency), n);
    assert KeptSlots(s, p, topk)[|older| + (j - n)] == j;
  }

  lemma InFirst<T>(a: seq<T>, b: seq<T>, x: T)
    ensures x in a ==> x in a + b
  {}
}
