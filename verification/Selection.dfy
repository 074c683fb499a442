/** Picking the top-scoring slots of a cache and gathering them in order. `topk` is a parameter:
    it may break ties any way it likes. */
module Selection {
  import opened Options
  import opened Nums
  import opened Seqs

  type TopK = (Vec, nat) -> set<nat>

  /** `sel` is a choice of `k` slots none of which scores below a slot left out. */
  ghost predicate IsTopK(s: Vec, k: nat, sel: set<nat>) {
    && |sel| == k && (forall i :: i in sel ==> i < |s|)
    && forall i, j :: i in sel && 0 <= j < |s| && j !in sel ==> s[j] <= s[i]
  }

  ghost predicate TopKLaw(topk: TopK) {
    forall s: Vec, k: nat :: k <= |s| ==> IsTopK(s, k, topk(s, k))
  }

  /** The members of `sel` below `n`, ascending: the indices after `.sort()`. */
  function Sorted(sel: set<nat>, n: nat): (idx: seq<nat>)
    ensures forall i :: 0 <= i < |idx| ==> idx[i] < n && idx[i] in sel
    ensures forall i, j :: 0 <= i < j < |idx| ==> idx[i] < idx[j]
  {
    if n == 0 then [] else Sorted(sel, n - 1) + if n - 1 in sel then [n - 1] else []
  }

  lemma {:induction false} SortedHas(sel: set<nat>, n: nat, x: nat)
    requires x < n
    ensures x in Sorted(sel, n) <==> x in sel
  {
    if x < n - 1 { SortedHas(sel, n - 1, x); }
  }

  function Below(n: nat): (s: set<nat>)
    ensures forall i: nat :: i in s <==> i < n
  {
    if n == 0 then {} else Below(n - 1) + {n - 1}
  }

  /** Sum of the scores of the chosen slots. */
  function SelSum(s: Vec, sel: set<nat>): real {
    if s == [] then 0.0
    else SelSum(s[..|s| - 1], sel) + if |s| - 1 in sel then s[|s| - 1] else 0.0
  }

  function Count(n: nat, sel: set<nat>): nat {
    if n == 0 then 0 else Count(n - 1, sel) + if n - 1 in sel then 1 else 0
  }

  lemma {:induction false} CountIsSize(n: nat, sel: set<nat>)
    requires forall i :: i in sel ==> i < n
    ensures Count(n, sel) == |sel|
  {
    if n > 0 {
      var rest := sel - {n - 1};
      CountIsSize(n - 1, rest);
      CountSame(n - 1, sel, rest);
      if n - 1 in sel { assert sel == rest + {n - 1}; } else { assert sel == rest; }
    }
  }

  lemma {:induction false} CountSame(n: nat, a: set<nat>, b: set<nat>)
    requires forall i: nat :: i < n ==> (i in a <==> i in b)
    ensures Count(n, a) == Count(n, b)
  {
    if n > 0 { CountSame(n - 1, a, b); }
  }

  lemma {:induction false} SortedCount(sel: set<nat>, n: nat)
    ensures |Sorted(sel, n)| == Count(n, sel)
  {
    if n > 0 { SortedCount(sel, n - 1); }
  }

  /** Sorting a choice of slots lists each of them once. */
  lemma SortedLength(sel: set<nat>, n: nat)
    requires forall i :: i in sel ==> i < n
    ensures |Sorted(sel, n)| == |sel|
  {
    SortedCount(sel, n);
    CountIsSize(n, sel);
  }

  /** Chosen and left-out slots share out the whole score. */
  lemma {:induction false} SelSplit(s: Vec, sel: set<nat>)
    ensures SelSum(s, sel) + SelSum(s, Below(|s|) - sel) == Sum(s)
  {
    if s != [] {
      var p := s[..|s| - 1];
      SelSplit(p, sel);
      SelSame(p, Below(|s|) - sel, Below(|p|) - sel);
      SumAppend(p, [s[|s| - 1]]);
      assert s == p + [s[|s| - 1]];
      assert Sum([s[|s| - 1]]) == s[|s| - 1];
    }
  }

  lemma {:induction false} SelSame(s: Vec, a: set<nat>, b: set<nat>)
    requires forall i: nat :: i < |s| ==> (i in a <==> i in b)
    ensures SelSum(s, a) == SelSum(s, b)
  {
    if s != [] { SelSame(s[..|s| - 1], a, b); }
  }

  lemma {:induction false} SelUnion(s: Vec, a: set<nat>, b: set<nat>)
    requires a !! b
    ensures SelSum(s, a + b) == SelSum(s, a) + SelSum(s, b)
  {
    if s != [] { SelUnion(s[..|s| - 1], a, b); }
  }

  lemma {:induction false} SelAgree(s: Vec, r: Vec, sel: set<nat>)
    requires |s| == |r| && forall i :: i in sel && i < |s| ==> s[i] == r[i]
    ensures SelSum(s, sel) == SelSum(r, sel)
  {
    if s != [] { SelAgree(s[..|s| - 1], r[..|r| - 1], sel); }
  }

  /** Gathering the sorted choice sums to the choice. */
  lemma {:induction false} GatherSum(s: Vec, sel: set<nat>, n: nat)
    requires n <= |s|
    ensures Sum(Gather(s, Sorted(sel, n))) == SelSum(s[..n], sel)
  {
    if n > 0 {
      GatherSum(s, sel, n - 1);
      assert s[..n][..n - 1] == s[..n - 1];
      var g := Gather(s, Sorted(sel, n - 1));
      if n - 1 in sel {
        GatherAppend(s, Sorted(sel, n - 1), n - 1);
        SumAppend(g, [s[n - 1]]);
        assert Sum([s[n - 1]]) == s[n - 1];
      } else {
        assert Sorted(sel, n) == Sorted(sel, n - 1);
      }
    }
  }

  /** The lowest score among a non-empty choice. */
  lemma {:induction false} LowestChosen(s: Vec, sel: set<nat>) returns (m: nat)
    requires sel != {} && forall i :: i in sel ==> i < |s|
    ensures m in sel && forall i :: i in sel ==> s[m] <= s[i]
    decreases |sel|
  {
    var a :| a in sel;
    m := a;
    var rest := sel - {a};
    if rest != {} {
      var r := LowestChosen(s, rest);
      m := if s[r] < s[a] then r else a;
      assert forall i :: i in sel ==> i in rest || i == a;
    }
  }

  /** What a choice scores above a threshold. */
  function Excess(s: Vec, sel: set<nat>, t: real): real {
    if s == [] then 0.0
    else Excess(s[..|s| - 1], sel, t) + if |s| - 1 in sel then s[|s| - 1] - t else 0.0
  }

  lemma {:induction false} ExcessIs(s: Vec, sel: set<nat>, t: real)
    ensures Excess(s, sel, t) == SelSum(s, sel) - t * Count(|s|, sel) as real
  {
    if s != [] {
      ExcessIs(s[..|s| - 1], sel, t);
      var c := Count(|s| - 1, sel) as real;
      assert t * (c + 1.0) == t * c + t;
    }
  }

  lemma {:induction false} AboveThreshold(s: Vec, a: set<nat>, b: set<nat>, t: real)
    requires forall i: nat :: i < |s| && i in a ==> t <= s[i]
    requires forall i: nat :: i < |s| && i !in a ==> s[i] <= t
    ensures Excess(s, b, t) <= Excess(s, a, t)
  {
    if s != [] { AboveThreshold(s[..|s| - 1], a, b, t); }
  }

  /** A top-k choice has the largest score sum of all choices of that size. */
  lemma TopKIsOptimal(s: Vec, k: nat, sel: set<nat>, other: set<nat>)
    requires IsTopK(s, k, sel) && |other| == k && forall i :: i in other ==> i < |s|
    ensures SelSum(s, other) <= SelSum(s, sel)
  {
    if k == 0 {
      assert sel == {} && other == {};
    } else {
      var m := LowestChosen(s, sel);
      CountIsSize(|s|, sel);
      CountIsSize(|s|, other);
      AboveThreshold(s, sel, other, s[m]);
      SameSizeBest(s, sel, other, s[m]);
    }
  }

  lemma SameSizeBest(s: Vec, a: set<nat>, b: set<nat>, t: real)
    requires Excess(s, b, t) <= Excess(s, a, t) && Count(|s|, a) == Count(|s|, b)
    ensures SelSum(s, b) <= SelSum(s, a)
  {
    ExcessIs(s, a, t);
    ExcessIs(s, b, t);
  }

  // ---- a top-k choice ----

  /** The best slot outside `taken`, the first one on ties. */
  function BestSlot(s: Vec, n: nat, taken: set<nat>): (best: Option<nat>)
    requires n <= |s|
    ensures best.None? ==> forall i: nat :: i < n ==> i in taken
    ensures best.Some? ==> best.value < n && best.value !in taken
    ensures best.Some? ==> forall i :: 0 <= i < n && i !in taken ==> s[i] <= s[best.value]
  {
    if n == 0 then None
    else
      var b := BestSlot(s, n - 1, taken);
      if n - 1 in taken then b
      else if b.None? || s[b.value] < s[n - 1] then Some(n - 1)
      else b
  }

  function FirstBest(s: Vec, k: nat): (sel: set<nat>) {
    if k == 0 then {}
    else
      var sel := FirstBest(s, k - 1);
      var b := BestSlot(s, |s|, sel);
      if b.None? then sel else sel + {b.value}
  }

  lemma {:induction false} FirstBestIsTopK(s: Vec, k: nat)
    requires k <= |s|
    ensures IsTopK(s, k, FirstBest(s, k))
  {
    if k > 0 {
      FirstBestIsTopK(s, k - 1);
      var sel := FirstBest(s, k - 1);
      var b := BestSlot(s, |s|, sel);
      if b.None? {
        TooMany(|s|, sel);
      } else {
        AddBest(s, k - 1, sel, b.value);
        assert FirstBest(s, k) == sel + {b.value};
      }
    }
  }

  lemma AddBest(s: Vec, k: nat, sel: set<nat>, b: nat)
    requires IsTopK(s, k, sel) && b < |s| && b !in sel && forall i :: 0 <= i < |s| && i !in sel ==> s[i] <= s[b]
    ensures IsTopK(s, k + 1, sel + {b})
  {
    assert |sel + {b}| == |sel| + 1;
  }

  lemma {:induction false} TooMany(n: nat, sel: set<nat>)
    requires forall i: nat :: i < n ==> i in sel
    ensures |sel| >= n
  {
    if n > 0 {
      TooMany(n - 1, sel - {n - 1});
    }
  }

  /** Repeatedly taking the best slot left obeys the law asked of `topk`. */
  lemma FirstBestIsLawful()
    ensures TopKLaw(FirstBest)
  {
    forall s: Vec, k: nat | k <= |s| ensures IsTopK(s, k, FirstBest(s, k)) { FirstBestIsTopK(s, k); }
  }
}
