/** Replaying an allocator trace to the live set at maximum allocation, bucketed by code site. */
module AllocTrace {

  datatype Block = Block(size: nat, site: string)

  /** Both free actions of the trace read alike; any other action changes nothing. */
  datatype Event = Alloc(addr: nat, block: Block) | Free(addr: nat) | Other

  type Live = map<nat, Block>

  function Step(live: Live, e: Event): Live {
    match e
    case Alloc(addr, block) => live[addr := block]
    case Free(addr) => live - {addr}
    case Other => live
  }

  /** The blocks live after the first `k` events. */
  function LiveAt(evs: seq<Event>, k: nat): Live
    requires k <= |evs|
  {
    if k == 0 then map[] else Step(LiveAt(evs, k - 1), evs[k - 1])
  }

  /** Event `i` is the last before event `k` to touch an address, and allocates block `b` there. */
  predicate LastAllocates(evs: seq<Event>, k: nat, i: nat, addr: nat, b: Block)
    requires k <= |evs|
  {
    && i < k && evs[i] == Alloc(addr, b)
    && forall j :: i < j < k ==> !Touches(evs[j], addr)
  }

  predicate Touches(e: Event, addr: nat) {
    match e
    case Alloc(a, _) => a == addr
    case Free(a) => a == addr
    case Other => false
  }

  /** An address is live with a block exactly when the last event that touched it allocated that block. */
  lemma {:induction false} LiveIs(evs: seq<Event>, k: nat, addr: nat, b: Block)
    requires k <= |evs|
    ensures addr in LiveAt(evs, k) && LiveAt(evs, k)[addr] == b <==> exists i: nat :: LastAllocates(evs, k, i, addr, b)
  {
    if k > 0 {
      LiveIs(evs, k - 1, addr, b);
      var q := k - 1;
      if Touches(evs[q], addr) {
        if evs[q] == Alloc(addr, b) { assert LastAllocates(evs, k, q, addr, b); }
      } else {
        if i: nat :| LastAllocates(evs, q, i, addr, b) { assert LastAllocates(evs, k, i, addr, b); }
        if i: nat :| LastAllocates(evs, k, i, addr, b) { assert LastAllocates(evs, q, i, addr, b); }
      }
    }
  }

  /** The replay's running total after the first `k` events. */
  function Running(evs: seq<Event>, k: nat): int
    requires k <= |evs|
  {
    if k == 0 then 0
    else
      var cur, live := Running(evs, k - 1), LiveAt(evs, k - 1);
      match evs[k - 1]
      case Alloc(_, block) => cur + block.size
      case Free(addr) => if addr in live then cur - live[addr].size else cur
      case Other => cur
  }

  // ---- sums over sets ----

  ghost function Pick<T>(ks: set<T>): (a: T)
    requires ks != {}
    ensures a in ks
  {
    var a :| a in ks;
    a
  }

  ghost function SetSum<T>(ks: set<T>, f: T -> nat): nat {
    if ks == {} then 0 else f(Pick(ks)) + SetSum(ks - {Pick(ks)}, f)
  }

  /** The sum may be taken starting from any member. */
  lemma {:induction false} Extract<T>(ks: set<T>, f: T -> nat, a: T)
    requires a in ks
    ensures SetSum(ks, f) == f(a) + SetSum(ks - {a}, f)
  {
    var b := Pick(ks);
    if a != b {
      Extract(ks - {b}, f, a);
      Extract(ks - {a}, f, b);
      assert ks - {b} - {a} == ks - {a} - {b};
    }
  }

  lemma {:induction false} Frame<T>(ks: set<T>, f: T -> nat, g: T -> nat)
    requires forall a :: a in ks ==> f(a) == g(a)
    ensures SetSum(ks, f) == SetSum(ks, g)
  {
    if ks != {} { Frame(ks - {Pick(ks)}, f, g); }
  }

  lemma {:induction false} SumAdd<T>(ks: set<T>, f: T -> nat, g: T -> nat, h: T -> nat)
    requires forall a :: a in ks ==> h(a) == f(a) + g(a)
    ensures SetSum(ks, h) == SetSum(ks, f) + SetSum(ks, g)
  {
    if ks != {} { SumAdd(ks - {Pick(ks)}, f, g, h); }
  }

  lemma {:induction false} SumOnes<T>(ks: set<T>, f: T -> nat)
    requires forall a :: a in ks ==> f(a) == 1
    ensures SetSum(ks, f) == |ks|
  {
    if ks != {} { SumOnes(ks - {Pick(ks)}, f); }
  }

  lemma {:induction false} SumZeros<T>(ks: set<T>, f: T -> nat)
    requires forall a :: a in ks ==> f(a) == 0
    ensures SetSum(ks, f) == 0
  {
    if ks != {} { SumZeros(ks - {Pick(ks)}, f); }
  }

  // ---- the live total ----

  function SizeOf(live: Live): nat -> nat {
    (a: nat) => if a in live then live[a].size else 0
  }

  ghost function Total(live: Live): nat {
    SetSum(live.Keys, SizeOf(live))
  }

  lemma AllocTotal(live: Live, addr: nat, block: Block)
    ensures Total(live[addr := block]) + (if addr in live then live[addr].size else 0) == Total(live) + block.size
  {
    var next := live[addr := block];
    Extract(next.Keys, SizeOf(next), addr);
    Frame(live.Keys - {addr}, SizeOf(next), SizeOf(live));
    assert next.Keys - {addr} == live.Keys - {addr};
    if addr in live { Extract(live.Keys, SizeOf(live), addr); } else { assert live.Keys - {addr} == live.Keys; }
  }

  lemma FreeTotal(live: Live, addr: nat)
    ensures Total(live - {addr}) + (if addr in live then live[addr].size else 0) == Total(live)
  {
    var next := live - {addr};
    assert next.Keys == live.Keys - {addr};
    Frame(next.Keys, SizeOf(next), SizeOf(live));
    if addr in live { Extract(live.Keys, SizeOf(live), addr); } else { assert live.Keys - {addr} == live.Keys; }
  }

  // ---- when the running total is the live total ----

  /** Bytes that allocations wrote over while still live, up to event `k`. */
  function Overwritten(evs: seq<Event>, k: nat): nat
    requires k <= |evs|
  {
    if k == 0 then 0
    else
      var live := LiveAt(evs, k - 1);
      Overwritten(evs, k - 1)
      + if evs[k - 1].Alloc? && evs[k - 1].addr in live then live[evs[k - 1].addr].size else 0
  }

  lemma {:induction false} RunningIs(evs: seq<Event>, k: nat)
    requires k <= |evs|
    ensures Running(evs, k) == Total(LiveAt(evs, k)) + Overwritten(evs, k)
  {
    if k > 0 {
      RunningIs(evs, k - 1);
      match evs[k - 1]
      case Alloc(addr, block) => AllocTotal(LiveAt(evs, k - 1), addr, block);
      case Free(addr) => FreeTotal(LiveAt(evs, k - 1), addr);
      case Other =>
    }
  }

  /** Event `k` allocates where a block of non-zero size is still live. */
  predicate Clobbers(evs: seq<Event>, k: nat)
    requires k < |evs|
  {
    evs[k].Alloc? && evs[k].addr in LiveAt(evs, k) && LiveAt(evs, k)[evs[k].addr].size > 0
  }

  /** Exactly when the running total is the sum of the live sizes at every event: no allocation lands on
      a live block of non-zero size. */
  lemma RunningIsLiveIff(evs: seq<Event>)
    ensures (forall k :: 0 <= k <= |evs| ==> Running(evs, k) == Total(LiveAt(evs, k)))
       <==> forall k :: 0 <= k < |evs| ==> !Clobbers(evs, k)
  {
    if forall k :: 0 <= k < |evs| ==> !Clobbers(evs, k) {
      forall k | 0 <= k <= |evs| ensures Running(evs, k) == Total(LiveAt(evs, k)) {
        NothingOverwritten(evs, k);
        RunningIs(evs, k);
      }
    } else {
      var k :| 0 <= k < |evs| && Clobbers(evs, k);
      RunningIs(evs, k + 1);
      assert Running(evs, k + 1) > Total(LiveAt(evs, k + 1));
    }
  }

  lemma {:induction false} NothingOverwritten(evs: seq<Event>, k: nat)
    requires k <= |evs| && forall j :: 0 <= j < k ==> !Clobbers(evs, j)
    ensures Overwritten(evs, k) == 0
  {
    if k > 0 {
      NothingOverwritten(evs, k - 1);
      assert !Clobbers(evs, k - 1);
    }
  }

  // ---- the replay ----

  /** `p` is the first prefix at which the running total reaches its maximum. */
  ghost predicate FirstPeak(evs: seq<Event>, n: nat, p: nat)
    requires p <= n <= |evs|
  {
    && (forall q :: 0 <= q <= n ==> Running(evs, q) <= Running(evs, p))
    && forall q :: 0 <= q < p ==> Running(evs, q) < Running(evs, p)
  }

  datatype Bucket = Bucket(bytes: nat, n: nat)
  datatype Report = Report(peak: int, nEvents: nat, live: Live, buckets: map<string, Bucket>)

  /** The replay: the reported peak is the maximum over all prefixes, the snapshot is the live set at the
      first prefix that reaches it, and the buckets partition the snapshot by site. */
  method LiveAtPeak(evs: seq<Event>) returns (r: Report)
    ensures r.nEvents == |evs|
    ensures exists p: nat ::
              p <= |evs| && FirstPeak(evs, |evs|, p) && r.peak == Running(evs, p) && r.live == LiveAt(evs, p)
    ensures BucketsOf(r.buckets, r.live)
    ensures (forall k :: 0 <= k < |evs| ==> !Clobbers(evs, k)) ==> TruePeak(evs, r)
  {
    var live: Live, cur: int, peak: int, peakLive: Live := map[], 0, 0, map[];
    ghost var p: nat := 0;
    for k := 0 to |evs|
      invariant live == LiveAt(evs, k) && cur == Running(evs, k)
      invariant p <= k && FirstPeak(evs, k, p) && peak == Running(evs, p) && peakLive == LiveAt(evs, p)
    {
      match evs[k]
      case Alloc(addr, block) =>
        live := live[addr := block];
        cur := cur + block.size;
        if cur > peak {
          peak, peakLive := cur, live;
          p := k + 1;
        }
      case Free(addr) =>
        if addr in live {
          cur := cur - live[addr].size;
        }
        live := live - {addr};
      case Other =>
    }
    var buckets := Bucketed(peakLive);
    r := Report(peak, |evs|, peakLive, buckets);
    if forall k :: 0 <= k < |evs| ==> !Clobbers(evs, k) { PeakIsTrue(evs, r, p); }
  }

  /** The report is right: its peak is the largest number of live bytes after any prefix of the trace, and its
      buckets account for all of them. */
  ghost predicate TruePeak(evs: seq<Event>, r: Report) {
    && (forall k :: 0 <= k <= |evs| ==> Total(LiveAt(evs, k)) <= r.peak)
    && (exists k :: 0 <= k <= |evs| && Total(LiveAt(evs, k)) == r.peak && LiveAt(evs, k) == r.live)
    && SetSum(r.buckets.Keys, BytesIn(r.buckets)) == r.peak
    && SetSum(r.buckets.Keys, BlocksIn(r.buckets)) == |r.live|
  }

  lemma PeakIsTrue(evs: seq<Event>, r: Report, p: nat)
    requires forall k :: 0 <= k < |evs| ==> !Clobbers(evs, k)
    requires p <= |evs| && FirstPeak(evs, |evs|, p) && r.peak == Running(evs, p) && r.live == LiveAt(evs, p)
    requires BucketsOf(r.buckets, r.live)
    ensures TruePeak(evs, r)
  {
    RunningIsLiveIff(evs);
    BucketsAddUp(r.buckets, r.live);
    forall k | 0 <= k <= |evs| ensures Total(LiveAt(evs, k)) <= r.peak { assert Running(evs, k) <= Running(evs, p); }
  }

  // ---- buckets ----

  function SiteBytes(live: Live, site: string): nat -> nat {
    (a: nat) => if a in live && live[a].site == site then live[a].size else 0
  }

  function SiteBlocks(live: Live, site: string): nat -> nat {
    (a: nat) => if a in live && live[a].site == site then 1 else 0
  }

  ghost function SiteBucket(live: Live, ks: set<nat>, s: string): Bucket {
    Bucket(SetSum(ks, SiteBytes(live, s)), SetSum(ks, SiteBlocks(live, s)))
  }

  predicate Present(live: Live, ks: set<nat>, s: string) {
    exists a :: a in ks && a in live && live[a].site == s
  }

  /** One bucket per site present among `ks`, holding the bytes and number of that site's blocks. */
  ghost predicate BucketsFor(buckets: map<string, Bucket>, live: Live, ks: set<nat>) {
    && (forall s :: s in buckets <==> Present(live, ks, s))
    && forall s :: s in buckets ==> buckets[s] == SiteBucket(live, ks, s)
  }

  ghost predicate BucketsOf(buckets: map<string, Bucket>, live: Live) {
    BucketsFor(buckets, live, live.Keys)
  }

  /** A block's site gains its bytes and one block; a site not seen before starts from nothing. */
  function Credit(buckets: map<string, Bucket>, b: Block): map<string, Bucket> {
    var before := if b.site in buckets then buckets[b.site] else Bucket(0, 0);
    buckets[b.site := Bucket(before.bytes + b.size, before.n + 1)]
  }

  method Bucketed(live: Live) returns (buckets: map<string, Bucket>)
    ensures BucketsOf(buckets, live)
  {
    buckets := map[];
    var todo := live.Keys;
    assert live.Keys - todo == {};
    while todo != {}
      invariant todo <= live.Keys && BucketsFor(buckets, live, live.Keys - todo)
      decreases |todo|
    {
      var a :| a in todo;
      AddBlock(buckets, live, live.Keys - todo, a);
      MoveOne(live.Keys, todo, a);
      buckets := Credit(buckets, live[a]);
      todo := todo - {a};
    }
    assert live.Keys - todo == live.Keys;
  }

  lemma MoveOne(all: set<nat>, todo: set<nat>, a: nat)
    requires a in todo && todo <= all
    ensures all - (todo - {a}) == (all - todo) + {a}
  {
  }

  lemma SiteBucketAdd(live: Live, seen: set<nat>, a: nat, s: string)
    requires a in live && a !in seen
    ensures SiteBucket(live, seen + {a}, s).bytes
         == SiteBucket(live, seen, s).bytes + (if live[a].site == s then live[a].size else 0)
    ensures SiteBucket(live, seen + {a}, s).n == SiteBucket(live, seen, s).n + (if live[a].site == s then 1 else 0)
  {
    var more := seen + {a};
    assert more - {a} == seen;
    Extract(more, SiteBytes(live, s), a);
    Extract(more, SiteBlocks(live, s), a);
  }

  lemma SiteBucketAbsent(live: Live, ks: set<nat>, s: string)
    requires !Present(live, ks, s)
    ensures SiteBucket(live, ks, s) == Bucket(0, 0)
  {
    SumZeros(ks, SiteBytes(live, s));
    SumZeros(ks, SiteBlocks(live, s));
  }

  lemma PresentAdd(live: Live, seen: set<nat>, a: nat, s: string)
    requires a in live
    ensures Present(live, seen + {a}, s) <==> Present(live, seen, s) || live[a].site == s
  {
    var more := seen + {a};
    if Present(live, seen, s) {
      var x :| x in seen && x in live && live[x].site == s;
      assert x in more;
    }
    assert a in more;
  }

  lemma CreditAt(buckets: map<string, Bucket>, b: Block, s: string, earlier: Bucket, now: Bucket)
    requires s in buckets || s == b.site
    requires earlier == if s in buckets then buckets[s] else Bucket(0, 0)
    requires now.bytes == earlier.bytes + if b.site == s then b.size else 0
    requires now.n == earlier.n + if b.site == s then 1 else 0
    ensures Credit(buckets, b)[s] == now
  {
  }

  lemma AddBlock(buckets: map<string, Bucket>, live: Live, seen: set<nat>, a: nat)
    requires BucketsFor(buckets, live, seen) && a in live && a !in seen
    ensures BucketsFor(Credit(buckets, live[a]), live, seen + {a})
  {
    var after := Credit(buckets, live[a]);
    forall s ensures s in after <==> Present(live, seen + {a}, s) { PresentAdd(live, seen, a, s); }
    forall s | s in after ensures after[s] == SiteBucket(live, seen + {a}, s) {
      SiteBucketAdd(live, seen, a, s);
      if s !in buckets { SiteBucketAbsent(live, seen, s); }
      CreditAt(buckets, live[a], s, SiteBucket(live, seen, s), SiteBucket(live, seen + {a}, s));
    }
  }

  // ---- the buckets add up ----

  function BytesIn(buckets: map<string, Bucket>): string -> nat {
    (s: string) => if s in buckets then buckets[s].bytes else 0
  }

  function BlocksIn(buckets: map<string, Bucket>): string -> nat {
    (s: string) => if s in buckets then buckets[s].n else 0
  }

  function One(): nat -> nat {
    (_: nat) => 1
  }

  /** Weight of an address counted only when its block's site is among `sites`. */
  function Within(live: Live, sites: set<string>, f: nat -> nat): nat -> nat {
    (a: nat) => if a in live && live[a].site in sites then f(a) else 0
  }

  lemma OneMoreSite(live: Live, sites: set<string>, s: string, at: string -> nat -> nat, f: nat -> nat)
    requires s in sites && forall a :: a in live ==> at(s)(a) == if live[a].site == s then f(a) else 0
    ensures forall a :: a in live.Keys ==>
              Within(live, sites, f)(a) == at(s)(a) + Within(live, sites - {s}, f)(a)
  {}

  /** Per-site sums of a weight, summed over sites, are the sum of the weight over the blocks at those sites. */
  lemma {:induction false} SitesAddUp(live: Live, sites: set<string>, per: string -> nat, at: string -> nat -> nat,
                                      f: nat -> nat)
    requires forall s :: s in sites ==> per(s) == SetSum(live.Keys, at(s))
    requires forall s, a :: s in sites && a in live ==> at(s)(a) == if live[a].site == s then f(a) else 0
    ensures SetSum(sites, per) == SetSum(live.Keys, Within(live, sites, f))
  {
    var ks := live.Keys;
    if sites == {} {
      SumZeros(ks, Within(live, sites, f));
    } else {
      var s := Pick(sites);
      SitesAddUp(live, sites - {s}, per, at, f);
      OneMoreSite(live, sites, s, at, f);
      SumAdd(ks, at(s), Within(live, sites - {s}, f), Within(live, sites, f));
    }
  }

  lemma EverySite(buckets: map<string, Bucket>, live: Live, a: nat)
    requires BucketsOf(buckets, live) && a in live
    ensures live[a].site in buckets.Keys
  {
    assert Present(live, live.Keys, live[a].site);
  }

  lemma BytesAddUp(buckets: map<string, Bucket>, live: Live)
    requires BucketsOf(buckets, live)
    ensures SetSum(buckets.Keys, BytesIn(buckets)) == Total(live)
  {
    SitesAddUp(live, buckets.Keys, BytesIn(buckets), s => SiteBytes(live, s), SizeOf(live));
    forall a | a in live.Keys
      ensures Within(live, buckets.Keys, SizeOf(live))(a) == SizeOf(live)(a)
    {
      EverySite(buckets, live, a);
    }
    Frame(live.Keys, Within(live, buckets.Keys, SizeOf(live)), SizeOf(live));
  }

  lemma BlocksAddUp(buckets: map<string, Bucket>, live: Live)
    requires BucketsOf(buckets, live)
    ensures SetSum(buckets.Keys, BlocksIn(buckets)) == |live|
  {
    SitesAddUp(live, buckets.Keys, BlocksIn(buckets), s => SiteBlocks(live, s), One());
    forall a | a in live.Keys ensures Within(live, buckets.Keys, One())(a) == 1 { EverySite(buckets, live, a); }
    SumOnes(live.Keys, Within(live, buckets.Keys, One()));
  }

  /** Bucket bytes and counts sum to the snapshot's bytes and its number of blocks. */
  lemma BucketsAddUp(buckets: map<string, Bucket>, live: Live)
    requires BucketsOf(buckets, live)
    ensures SetSum(buckets.Keys, BytesIn(buckets)) == Total(live)
    ensures SetSum(buckets.Keys, BlocksIn(buckets)) == |live|
  {
    BytesAddUp(buckets, live);
    BlocksAddUp(buckets, live);
  }
}
