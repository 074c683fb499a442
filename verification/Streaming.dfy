/** StreamingLLM eviction by token position: the cache pruned after every prefill chunk, against
    the same policy applied once to the whole prompt. */
module Streaming {
  import opened Nums
  import opened Seqs

  /** The slice `s[:k]`. */
  function Head<T>(s: seq<T>, k: nat): seq<T> {
    if k <= |s| then s[..k] else s
  }

  /** The slice `s[-k:]`, which for `k` zero is the whole of `s`. */
  function Tail<T>(s: seq<T>, k: nat): seq<T> {
    if k == 0 || k >= |s| then s else s[|s| - k..]
  }

  /** Sinks and recency window of a cache over the cap; a cache within the cap is left alone. */
  function Prune(s: seq<nat>, sink: nat, recency: nat): seq<nat> {
    if |s| <= sink + recency then s else Head(s, sink) + Tail(s, recency)
  }

  /** Tokens fed by a list of chunks. */
  function Total(sizes: seq<nat>): nat {
    if sizes == [] then 0 else Total(sizes[..|sizes| - 1]) + sizes[|sizes| - 1]
  }

  /** What one layer holds while a chunk is being read, before it is pruned. */
  function Grown(sizes: seq<nat>, sink: nat, recency: nat): (s: seq<nat>)
    requires sizes != []
    decreases |sizes|, 0
  {
    var p := sizes[..|sizes| - 1];
    Streamed(p, sink, recency) + Range(Total(p), Total(sizes))
  }

  /** What one layer holds after pruning behind every chunk. */
  function Streamed(sizes: seq<nat>, sink: nat, recency: nat): (s: seq<nat>)
    decreases |sizes|, 1
  {
    if sizes == [] then [] else Prune(Grown(sizes, sink, recency), sink, recency)
  }

  /** The policy applied once, after the whole prompt. */
  function PostHoc(n: nat, sink: nat, recency: nat): seq<nat> {
    Prune(Range(0, n), sink, recency)
  }

  /** The first `sink` and the last `recency` of `n` positions; all of them where these meet. */
  function SinksAndWindow(n: nat, sink: nat, recency: nat): (s: seq<nat>)
  {
    if n <= sink + recency then Range(0, n) else Range(0, sink) + Range(n - recency, n)
  }

  /** In ascending order, and a position is among them exactly when it is one of the first or of the last. */
  lemma SinksAndWindowAre(n: nat, sink: nat, recency: nat, i: nat)
    ensures var s := SinksAndWindow(n, sink, recency); forall a, b :: 0 <= a < b < |s| ==> s[a] < s[b]
    ensures i in SinksAndWindow(n, sink, recency) <==> i < n && (i < sink || i + recency >= n)
  {
    var s := SinksAndWindow(n, sink, recency);
    if i < n {
      if n <= sink + recency || i < sink {
        assert s[i] == i;
      } else if i + recency >= n {
        assert s[sink + (i + recency - n)] == i;
      }
    }
  }

  lemma IsSinksAndWindow(n: nat, sink: nat, recency: nat)
    requires recency >= 1
    ensures PostHoc(n, sink, recency) == SinksAndWindow(n, sink, recency)
  {
    if n > sink + recency { PostHocLong(n, sink, recency); }
  }

  lemma PostHocLong(n: nat, sink: nat, recency: nat)
    requires recency >= 1 && n > sink + recency
    ensures PostHoc(n, sink, recency) == Range(0, sink) + Range(n - recency, n)
  {}

  /** Pruning sinks and window extended by newer tokens gives the sinks and the newer window. */
  lemma PruneExtended(a: nat, b: nat, sink: nat, recency: nat)
    requires recency >= 1 && sink + recency < a <= b
    ensures Prune(PostHoc(a, sink, recency) + Range(a, b), sink, recency) == PostHoc(b, sink, recency)
  {
    PostHocLong(a, sink, recency);
    PostHocLong(b, sink, recency);
    TailExtended(a, b, recency);
    PruneLong(PostHoc(a, sink, recency), Range(0, sink), Range(a - recency, a), Range(a, b), recency,
              Range(b - recency, b), PostHoc(b, sink, recency));
  }

  lemma PruneLong(g: seq<nat>, x: seq<nat>, y: seq<nat>, z: seq<nat>, k: nat, w: seq<nat>, h: seq<nat>)
    requires g == x + y && |y| == k >= 1 && Tail(y + z, k) == w && h == x + w
    ensures Prune(g + z, |x|, k) == h
  {
    Assoc(x, y, z);
    assert Head(x + (y + z), |x|) == x && Tail(x + (y + z), k) == Tail(y + z, k);
    assert z == [] ==> Tail(y + z, k) == y + z;
  }

  lemma TailExtended(a: nat, b: nat, k: nat)
    requires 1 <= k <= a <= b
    ensures Tail(Range(a - k, a) + Range(a, b), k) == Range(b - k, b)
  {
    RangeAppend(a - k, a, b);
    TailOfRange(a - k, b, k);
  }

  lemma TailOfRange(a: nat, b: nat, k: nat)
    requires a <= b && 1 <= k <= b - a
    ensures Tail(Range(a, b), k) == Range(b - k, b)
  {}

  /** The longest any layer gets while the chunks are read. */
  function Longest(sizes: seq<nat>, sink: nat, recency: nat): nat {
    if sizes == [] then 0
    else
      var m, g := Longest(sizes[..|sizes| - 1], sink, recency), |Grown(sizes, sink, recency)|;
      if m < g then g else m
  }

  /** The memory bound of the method: the cap plus one chunk, whatever the prompt's length. */
  lemma {:induction false} LongestBounded(sizes: seq<nat>, sink: nat, recency: nat, chunk: nat)
    requires recency >= 1 && forall i :: 0 <= i < |sizes| ==> sizes[i] <= chunk
    ensures Longest(sizes, sink, recency) <= sink + recency + chunk
  {
    if sizes != [] {
      LongestBounded(sizes[..|sizes| - 1], sink, recency, chunk);
      StreamedIsPostHoc(sizes, sink, recency);
    }
  }

  /** With a recency window, pruning behind every chunk keeps exactly the positions the one-shot
      policy keeps, and no layer ever holds more than the cap plus one chunk. */
  lemma {:induction false} StreamedIsPostHoc(sizes: seq<nat>, sink: nat, recency: nat)
    requires recency >= 1
    ensures Streamed(sizes, sink, recency) == PostHoc(Total(sizes), sink, recency)
    ensures Streamed(sizes, sink, recency) == SinksAndWindow(Total(sizes), sink, recency)
    ensures sizes != [] ==> |Grown(sizes, sink, recency)| <= sink + recency + sizes[|sizes| - 1]
  {
    IsSinksAndWindow(Total(sizes), sink, recency);
    if sizes != [] {
      var p := sizes[..|sizes| - 1];
      StreamedIsPostHoc(p, sink, recency);
      if Total(p) <= sink + recency {
        RangeAppend(0, Total(p), Total(sizes));
      } else {
        PruneExtended(Total(p), Total(sizes), sink, recency);
        PostHocLong(Total(p), sink, recency);
      }
    }
  }

  // ---- no recency window ----

  /** How many chunks found the cache over the cap, that is, more than the sinks fed. */
  function Prunings(sizes: seq<nat>, sink: nat): nat {
    if sizes == [] then 0 else Prunings(sizes[..|sizes| - 1], sink) + if Total(sizes) > sink then 1 else 0
  }

  function Copies(s: seq<nat>, k: nat): (r: seq<nat>) {
    if k == 0 then [] else s + Copies(s, k - 1)
  }

  lemma {:induction false} CopiesLength(s: seq<nat>, k: nat)
    ensures |Copies(s, k)| == |s| * k
  {
    if k > 0 { CopiesLength(s, k - 1); }
  }

  /** Without a recency window the slice `[-0:]` keeps everything, so each pruning puts the sinks in front again: the
      layer ends with that many copies of the sinks and then every token. */
  lemma {:induction false} NoRecencyGrows(sizes: seq<nat>, sink: nat)
    ensures Streamed(sizes, sink, 0) == Copies(Range(0, sink), Prunings(sizes, sink)) + Range(0, Total(sizes))
    ensures |Streamed(sizes, sink, 0)| == Total(sizes) + sink * Prunings(sizes, sink)
  {
    if sizes != [] {
      var p := sizes[..|sizes| - 1];
      var sinks, k := Range(0, sink), Prunings(p, sink);
      NoRecencyGrows(p, sink);
      RangeAppend(0, Total(p), Total(sizes));
      Assoc(Copies(sinks, k), Range(0, Total(p)), Range(Total(p), Total(sizes)));
      if Total(sizes) > sink {
        SinksInFront(sinks, k, Range(0, Total(sizes)));
      } else {
        FewPrunings(p, sink);
      }
    }
    CopiesLength(Range(0, sink), Prunings(sizes, sink));
  }

  lemma SinksInFront(sinks: seq<nat>, k: nat, all: seq<nat>)
    requires |all| > |sinks| && all[..|sinks|] == sinks
    ensures var g := Copies(sinks, k) + all; |g| > |sinks| && Prune(g, |sinks|, 0) == Copies(sinks, k + 1) + all
  {
    var g := Copies(sinks, k) + all;
    if k > 0 { Assoc(sinks, Copies(sinks, k - 1), all); }
    assert Head(g, |sinks|) == sinks;
    Assoc(sinks, Copies(sinks, k), all);
  }

  lemma {:induction false} FewPrunings(sizes: seq<nat>, sink: nat)
    requires Total(sizes) <= sink
    ensures Prunings(sizes, sink) == 0
  {
    if sizes != [] { FewPrunings(sizes[..|sizes| - 1], sink); }
  }

  /** Whatever the prompt, the loop holds at most the cap plus one chunk: so exactly with a recency window. */
  lemma BoundedIff(sink: nat, recency: nat, chunk: nat)
    requires chunk > 0
    ensures (forall n: nat :: Longest(Chunks(n, chunk), sink, recency) <= sink + recency + chunk) <==> recency >= 1
  {
    if recency >= 1 {
      forall n: nat ensures Longest(Chunks(n, chunk), sink, recency) <= sink + recency + chunk {
        LongestBounded(Chunks(n, chunk), sink, recency, chunk);
      }
    } else {
      var n := sink + chunk + 1;
      HoldsAll(Chunks(n, chunk), sink);
      assert Longest(Chunks(n, chunk), sink, recency) > sink + recency + chunk;
    }
  }

  /** Without a recency window no token is ever dropped. */
  lemma HoldsAll(sizes: seq<nat>, sink: nat)
    requires sizes != []
    ensures Longest(sizes, sink, 0) >= Total(sizes)
  {
    var p := sizes[..|sizes| - 1];
    NoRecencyGrows(p, sink);
    assert |Grown(sizes, sink, 0)| >= Total(sizes);
  }

  /** The one-shot policy puts the sinks in front at most once. */
  lemma NoRecencyAgrees(sizes: seq<nat>, sink: nat)
    requires sizes != [] && sizes[|sizes| - 1] > 0
    ensures Streamed(sizes, sink, 0) == PostHoc(Total(sizes), sink, 0)
       <==> sink == 0 || Total(sizes[..|sizes| - 1]) <= sink
  {
    var p, sinks, all := sizes[..|sizes| - 1], Range(0, sink), Range(0, Total(sizes));
    NoRecencyGrows(sizes, sink);
    if Total(sizes) > sink {
      SinksInFront(sinks, 0, all);
      assert Copies(sinks, 0) + all == all;
    }
    if Total(p) <= sink {
      FewPrunings(p, sink);
      assert Copies(sinks, 0) + all == all;
    } else {
      CopiesLength(sinks, Prunings(sizes, sink));
      CopiesLength(sinks, 1);
      Twice(sink, Prunings(sizes, sink));
      if sink == 0 { assert Copies(sinks, Prunings(sizes, sink)) == [] == Copies(sinks, 1); }
    }
  }

  lemma Twice(a: nat, k: nat)
    requires k >= 2
    ensures a > 0 ==> a * k > a
  {
    assert a * k == a * (k - 2) + a + a;
  }

  /** Exactly when chunk-wise streaming agrees with the one-shot policy: there is a recency
      window, or there are no sinks, or everything before the last chunk fits in the sinks. */
  lemma StreamingAgreesIff(sizes: seq<nat>, sink: nat, recency: nat)
    requires sizes != []
    requires sizes[|sizes| - 1] > 0
    ensures Streamed(sizes, sink, recency) == PostHoc(Total(sizes), sink, recency)
       <==> recency >= 1 || sink == 0 || Total(sizes[..|sizes| - 1]) <= sink
  {
    if recency >= 1 {
      StreamedIsPostHoc(sizes, sink, recency);
    } else {
      NoRecencyAgrees(sizes, sink);
    }
  }

  // ---- the prefill loop over a whole cache ----

  /** Sizes of the chunks of a prompt of `n` tokens read `chunk` at a time. */
  function Chunks(n: nat, chunk: nat): (s: seq<nat>)
    requires chunk > 0
    ensures Total(s) == n && (n > 0 <==> s != []) && forall i :: 0 <= i < |s| ==> 0 < s[i] <= chunk
  {
    if n == 0 then []
    else
      var start := LastStart(n, chunk);
      var s := Chunks(start, chunk);
      assert (s + [n - start])[..|s|] == s;
      s + [n - start]
  }

  /** Every chunk but the last is whole, and so is the last if they fit. */
  lemma {:induction false} WholeChunks(n: nat, chunk: nat, i: nat)
    requires chunk > 0 && i < |Chunks(n, chunk)|
    ensures i < |Chunks(n, chunk)| - 1 || n % chunk == 0 ==> Chunks(n, chunk)[i] == chunk
  {
    var start := LastStart(n, chunk);
    if i < |Chunks(start, chunk)| {
      WholeChunks(start, chunk, i);
    } else if n % chunk == 0 {
      LastWhole(n, start, chunk);
    }
  }

  lemma LastWhole(n: nat, start: nat, chunk: nat)
    requires chunk > 0 && n % chunk == start % chunk == 0 && start < n <= start + chunk
    ensures n - start == chunk
  {
    ModMultiple(1, chunk);
    ModSum(start, chunk, chunk);
    MultiplesApart(n, start + chunk, chunk);
  }

  /** Where the last chunk of `n > 0` tokens starts. */
  function LastStart(n: nat, chunk: nat): (start: nat)
    requires chunk > 0 && n > 0
    ensures start < n <= start + chunk && start % chunk == 0
  {
    ModMultiple((n - 1) / chunk, chunk);
    (n - 1) / chunk * chunk
  }

  lemma NextChunk(cs: nat, e: nat, chunk: nat)
    requires chunk > 0 && cs % chunk == 0 && cs < e <= cs + chunk
    ensures Chunks(e, chunk) == Chunks(cs, chunk) + [e - cs]
  {
    MultiplesApart(LastStart(e, chunk), cs, chunk);
  }

  /** Some layers of a hybrid model hold no keys and values. */
  datatype Layer = NoKV | KV(held: seq<nat>)

  datatype Prefill = NothingEvicted | Done(cache: seq<Layer>, maxLen: nat)

  /** Every layer that holds keys and values holds exactly `s`. */
  predicate AllHold(cache: seq<Layer>, kv: seq<bool>, s: seq<nat>) {
    |cache| == |kv| && forall l :: 0 <= l < |kv| ==> cache[l] == if kv[l] then KV(s) else NoKV
  }

  /** One chunk: every layer with keys and values grows by the chunk's tokens and is pruned when
      it exceeds the cap; the length seen before pruning is recorded. */
  method PruneLayers(cache: seq<Layer>, kv: seq<bool>, s: seq<nat>, added: seq<nat>, sink: nat, recency: nat,
                     maxLen: nat)
    returns (after: seq<Layer>, longest: nat, nKv: nat)
    requires AllHold(cache, kv, s)
    ensures AllHold(after, kv, Prune(s + added, sink, recency))
    ensures nKv > 0 <==> true in kv
    ensures longest == if true in kv && maxLen < |s + added| then |s + added| else maxLen
  {
    after, longest, nKv := [], maxLen, 0;
    ghost var pruned := Prune(s + added, sink, recency);
    for l := 0 to |kv|
      invariant AllHold(after, kv[..l], pruned)
      invariant nKv > 0 <==> true in kv[..l]
      invariant longest == if true in kv[..l] && maxLen < |s + added| then |s + added| else maxLen
    {
      assert kv[..l + 1] == kv[..l] + [kv[l]];
      var layer := NoKV;
      if cache[l].KV? {
        nKv := nKv + 1;
        var grown := cache[l].held + added;
        longest := if longest < |grown| then |grown| else longest;
        layer := KV(if |grown| > sink + recency then Head(grown, sink) + Tail(grown, recency) else grown);
      }
      assert layer == if kv[l] then KV(pruned) else NoKV;
      AllHoldSnoc(after, kv[..l], pruned, kv[l]);
      after := after + [layer];
    }
    assert kv[..|kv|] == kv;
  }

  lemma AllHoldSnoc(cache: seq<Layer>, kv: seq<bool>, s: seq<nat>, one: bool)
    requires AllHold(cache, kv, s)
    ensures AllHold(cache + [if one then KV(s) else NoKV], kv + [one], s)
  {}

  /** The chunked prefill: every layer grows by the chunk, then every layer holding keys and
      values is pruned. `kv` says which layers hold any; the largest cache seen is recorded. */
  method PrefillStreaming(n: nat, chunk: nat, sink: nat, recency: nat, kv: seq<bool>) returns (r: Prefill)
    requires chunk > 0 && n > 0
    ensures r.NothingEvicted? <==> true !in kv
    ensures r.Done? ==> AllHold(r.cache, kv, Streamed(Chunks(n, chunk), sink, recency))
    ensures r.Done? ==> r.maxLen == Longest(Chunks(n, chunk), sink, recency)
    ensures r.Done? && recency >= 1 ==>
              AllHold(r.cache, kv, SinksAndWindow(n, sink, recency)) && r.maxLen <= sink + recency + chunk
  {
    var cache := seq(|kv|, l requires 0 <= l < |kv| => if kv[l] then KV([]) else NoKV);
    var maxLen: nat, cs: nat := 0, 0;
    ghost var at: nat := 0;
    while cs < n
      invariant at == (if cs < n then cs else n) && (cs < n ==> cs % chunk == 0)
      invariant cs > 0 ==> true in kv
      invariant AllHold(cache, kv, Streamed(Chunks(at, chunk), sink, recency))
      invariant maxLen == Longest(Chunks(at, chunk), sink, recency)
      decreases n - cs
    {
      var e := if cs + chunk < n then cs + chunk else n;
      ChunkStep(cs, e, chunk, sink, recency);
      var nKv;
      cache, maxLen, nKv := PruneLayers(cache, kv, Streamed(Chunks(cs, chunk), sink, recency), Range(cs, e), sink,
                                        recency, maxLen);
      if nKv == 0 {
        return NothingEvicted;
      }
      cs, at := cs + chunk, e;
    }
    r := Done(cache, maxLen);
    if recency >= 1 {
      StreamedIsPostHoc(Chunks(n, chunk), sink, recency);
      LongestBounded(Chunks(n, chunk), sink, recency, chunk);
    }
  }

  lemma ChunkStep(cs: nat, e: nat, chunk: nat, sink: nat, recency: nat)
    requires chunk > 0 && cs % chunk == 0 && cs < e <= cs + chunk
    ensures (cs + chunk) % chunk == 0
    ensures var s := Streamed(Chunks(cs, chunk), sink, recency) + Range(cs, e);
            && Streamed(Chunks(e, chunk), sink, recency) == Prune(s, sink, recency)
            && Longest(Chunks(e, chunk), sink, recency)
            == (if Longest(Chunks(cs, chunk), sink, recency) < |s| then |s|
                else Longest(Chunks(cs, chunk), sink, recency))
  {
    ModMultiple(1, chunk);
    ModSum(cs, chunk, chunk);
    NextChunk(cs, e, chunk);
    var sizes := Chunks(e, chunk);
    assert sizes[..|sizes| - 1] == Chunks(cs, chunk);
  }
}
