/** What an uninterrupted ladder records, rung by rung, in terms of what its child processes report: which rungs are
    skipped, which are degraded, and which rate is stored. */
module LadderVerdicts {
  import opened Seqs
  import opened Options
  import opened Nums
  import opened KeyedLog
  import opened Ladder
  import opened LadderRungs
  import opened LadderProofs
  import opened LadderLimits

  // ---- the law of the records ----

  /** A point that completed with both quantities of its rate measured. */
  predicate Measured(raw: Raw) {
    raw.status == Ok && raw.wall != 0.0 && raw.tokens != 0
  }

  /** Rung `m` completed, was measured, and is recorded as passing. */
  predicate Passing(recs: seq<Rec>, arm: string, ctxs: seq<nat>, o: Oracle, m: nat)
    requires m < |recs| == |ctxs|
  {
    recs[m].status == Ok && Measured(o(Key(arm, ctxs[m])))
  }

  /** Rung `m` is the last passing one before rung `n`. */
  predicate LastPassing(recs: seq<Rec>, arm: string, ctxs: seq<nat>, o: Oracle, n: nat, m: nat)
    requires n <= |recs| == |ctxs|
  {
    m < n && Passing(recs, arm, ctxs, o, m) && forall l :: m < l < n ==> !Passing(recs, arm, ctxs, o, l)
  }

  /** The one took more than two and a half times as long per token as the other. */
  predicate Slower(raw: Raw, base: Raw) {
    raw.wall * base.tokens as real > 2.5 * (base.wall * raw.tokens as real)
  }

  /** Seconds per thousand tokens, to the nearest thousandth. */
  predicate RateRounded(rate: real, raw: Raw) {
    && (rate * 1000.0).Floor as real == rate * 1000.0
    && -(0.0005 * raw.tokens as real) <= rate * raw.tokens as real - raw.wall * 1000.0 <= 0.0005 * raw.tokens as real
  }

  predicate IsCeiling(st: Status) {
    st == Oom || st == Died || st == Timeout || st == Spilled || st == Degraded
  }

  /** The climb has ended before rung `n`: the rung before was skipped, or the last `stop` rungs all hit a ceiling. */
  predicate Ended(recs: seq<Rec>, stop: int, n: nat)
    requires n <= |recs|
  {
    || (n > 0 && recs[n - 1].status == Skipped)
    || (stop <= n && forall m :: n - stop <= m < n ==> IsCeiling(recs[m].status))
  }

  /** What rung `n` is recorded as. A point that completed is degraded exactly when it was slower, by more than two and
      a half times, than the last passing one. */
  ghost predicate RungLaw(recs: seq<Rec>, arm: string, ctxs: seq<nat>, stop: int, o: Oracle, n: nat)
    requires n < |recs| == |ctxs|
  {
    var raw, r := o(Key(arm, ctxs[n])), recs[n];
    && r.key == Key(arm, ctxs[n])
    && (r.status == Skipped <==> Ended(recs, stop, n))
    && (r.status == Skipped ==> r.rate == None && !r.error)
    && (r.status != Skipped ==>
          && r.error == raw.error && (r.rate.Some? <==> Measured(raw))
          && (Measured(raw) ==> RateRounded(r.rate.value, raw))
          && (r.status == Degraded <==>
                Measured(raw)
                && exists m: nat :: LastPassing(recs, arm, ctxs, o, n, m) && Slower(raw, o(Key(arm, ctxs[m]))))
          && (r.status != Degraded ==> r.status == raw.status))
  }

  // ---- arithmetic of rates ----

  lemma RateOfMeasured(raw: Raw)
    ensures RateOf(raw).Some? <==> Measured(raw)
    ensures Measured(raw) ==> RateOf(raw).value * raw.tokens as real == raw.wall * 1000.0
  {
    if Measured(raw) {
      var t := raw.tokens as real / 1000.0;
      assert raw.tokens as real > 0.0 && t * 1000.0 == raw.tokens as real;
      Quotient(raw.wall, t, RateOf(raw).value);
    }
  }

  lemma Quotient(a: real, t: real, q: real)
    requires t > 0.0 && q == a / t
    ensures q * (t * 1000.0) == a * 1000.0
  {
    assert q * t == a;
    assert q * (t * 1000.0) == (q * t) * 1000.0;
  }

  /** Comparing quotients is comparing products. */
  lemma CliffIsSlower(raw: Raw, base: Raw)
    requires Measured(raw) && Measured(base)
    ensures Cliff(RateOf(raw), RateOf(base)) <==> Slower(raw, base)
  {
    RateOfMeasured(raw);
    RateOfMeasured(base);
    var x, y, m, n := RateOf(raw).value, RateOf(base).value, raw.tokens as real, base.tokens as real;
    assert m > 0.0 && n > 0.0;
    CrossTimes(x, y * CLIFF, m, n);
    Regroup(x, y, m, n, raw.wall, base.wall);
  }

  lemma CrossTimes(x: real, y: real, m: real, n: real)
    requires m > 0.0 && n > 0.0
    ensures x > y <==> (x * m) * n > (y * n) * m
  {
    var k := m * n;
    assert k > 0.0;
    assert (x * m) * n == x * k && (y * n) * m == y * k;
    ScaledOrder(x, y, k);
  }

  lemma ScaledOrder(x: real, y: real, k: real)
    requires k > 0.0
    ensures x > y <==> x * k > y * k
  {
    if x > y { assert (x - y) * k > 0.0; } else { assert (y - x) * k >= 0.0; }
  }

  lemma Regroup(x: real, y: real, m: real, n: real, v: real, w: real)
    requires x * m == v * 1000.0 && y * n == w * 1000.0
    ensures (x * m) * n > ((y * 2.5) * n) * m <==> v * n > 2.5 * (w * m)
  {
    assert (x * m) * n == (v * n) * 1000.0;
    assert ((y * 2.5) * n) * m == 2.5 * ((y * n) * m);
    assert (y * n) * m == (w * m) * 1000.0;
  }

  lemma RoundedRate(raw: Raw)
    requires Measured(raw)
    ensures RateRounded(Round3(RateOf(raw).value), raw)
  {
    RateOfMeasured(raw);
    var x, t := RateOf(raw).value, raw.tokens as real;
    var r := NearestThousandth(x);
    Within(r, x, t, raw.wall * 1000.0);
  }

  lemma NearestThousandth(x: real) returns (r: real)
    ensures r == Round3(x) && (r * 1000.0).Floor as real == r * 1000.0 && -0.0005 <= r - x <= 0.0005
  {
    r := Round3(x);
    assert r * 1000.0 == Round(x * 1000.0) as real;
  }

  lemma Within(r: real, x: real, t: real, w: real)
    requires t > 0.0 && -0.0005 <= r - x <= 0.0005 && x * t == w
    ensures -(0.0005 * t) <= r * t - w <= 0.0005 * t
  {
    var d := r - x;
    Product(0.0005 - d, t);
    Product(0.0005 + d, t);
    assert (0.0005 - d) * t == 0.0005 * t - d * t && (0.0005 + d) * t == 0.0005 * t + d * t;
    assert d * t == r * t - x * t;
  }

  lemma Product(a: real, b: real)
    requires a >= 0.0 && b >= 0.0
    ensures a * b >= 0.0
  {}

  // ---- the loop's state ----

  ghost predicate CleanClimber(c: Climber) {
    OracleOk(c.g.o) && c.g.done == {} && c.g.latest == map[]
  }

  /** The records of a whole climb. */
  function Recs(c: Climber): (recs: seq<Rec>)
    requires c.g.done == {}
    ensures |recs| == |c.ctxs| && forall n :: 0 <= n < |c.ctxs| ==> recs[n] == CleanRec(c, n)
  {
    seq(|c.ctxs|, n requires 0 <= n < |c.ctxs| => CleanRec(c, n))
  }

  /** The baseline is the rate of the last passing rung. */
  lemma {:induction false} BaselineIs(c: Climber, n: nat) returns (m: nat)
    requires CleanClimber(c) && n <= |c.ctxs|
    ensures BaselineFrom(c, Recs(c), StateAt(c, n).last, n, m)
  {
    if n == 0 {
      m := 0;
    } else {
      m := BaselineIs(c, n - 1);
      PassingIff(c, n - 1);
      m := NextBaseline(c, Recs(c), StateAt(c, n - 1).last, StateAt(c, n).last, n, m);
    }
  }

  ghost predicate BaselineFrom(c: Climber, recs: seq<Rec>, last: Option<real>, n: nat, m: nat)
    requires n <= |recs| == |c.ctxs|
  {
    match last
    case Some(_) => LastPassing(recs, c.g.arm, c.ctxs, c.g.o, n, m) && last == RateOf(c.g.o(KeyAt(c, m)))
    case None => forall l :: 0 <= l < n ==> !Passing(recs, c.g.arm, c.ctxs, c.g.o, l)
  }

  lemma NextBaseline(c: Climber, recs: seq<Rec>, last: Option<real>, next: Option<real>, n: nat, m: nat)
    returns (m': nat)
    requires 0 < n <= |recs| == |c.ctxs| && BaselineFrom(c, recs, last, n - 1, m)
    requires next == if Passing(recs, c.g.arm, c.ctxs, c.g.o, n - 1) then RateOf(c.g.o(KeyAt(c, n - 1))) else last
    ensures BaselineFrom(c, recs, next, n, m')
  {
    m' := if Passing(recs, c.g.arm, c.ctxs, c.g.o, n - 1) then n - 1 else m;
    if Passing(recs, c.g.arm, c.ctxs, c.g.o, n - 1) { RateOfMeasured(c.g.o(KeyAt(c, n - 1))); }
  }

  /** A rung passes exactly when it becomes the baseline. */
  lemma PassingIff(c: Climber, n: nat)
    requires CleanClimber(c) && n < |c.ctxs|
    ensures StateAt(c, n + 1).last
         == if Passing(Recs(c), c.g.arm, c.ctxs, c.g.o, n) then RateOf(c.g.o(KeyAt(c, n))) else StateAt(c, n).last
  {
    assert RawOk(c.g.o(KeyAt(c, n)));
    RateOfMeasured(c.g.o(KeyAt(c, n)));
  }

  /** The count is that of the ceilings right before, until a rung is skipped. */
  lemma {:induction false} CountIs(c: Climber, n: nat) returns (a: nat)
    requires CleanClimber(c) && n <= |c.ctxs| && forall l :: 0 <= l < n ==> CleanRec(c, l).status != Skipped
    ensures a <= n && n - a == StateAt(c, n).ooms
    ensures forall l :: a <= l < n ==> IsCeiling(CleanRec(c, l).status)
    ensures a > 0 ==> !IsCeiling(CleanRec(c, a - 1).status)
  {
    if n == 0 {
      a := 0;
    } else {
      a := CountIs(c, n - 1);
      assert RawOk(c.g.o(KeyAt(c, n - 1)));
      if !IsCeiling(CleanRec(c, n - 1).status) { a := n; }
    }
  }

  lemma SkipsIff(c: Climber, n: nat)
    requires CleanClimber(c) && n < |c.ctxs|
    ensures CleanRec(c, n).status == Skipped <==> StateAt(c, n).ooms >= c.g.stop
    ensures CleanRec(c, n).status == Skipped ==> StateAt(c, n + 1) == StateAt(c, n)
  {
    assert RawOk(c.g.o(KeyAt(c, n)));
  }

  /** A rung is skipped exactly when the climb has ended before it. */
  lemma {:induction false} EndedIff(c: Climber, n: nat)
    requires CleanClimber(c) && n < |c.ctxs|
    ensures CleanRec(c, n).status == Skipped <==> Ended(Recs(c), c.g.stop, n)
  {
    SkipsIff(c, n);
    if n > 0 && CleanRec(c, n - 1).status == Skipped {
      SkipsIff(c, n - 1);
    } else {
      NoneSkipped(c, n);
      var a := CountIs(c, n);
      if c.g.stop <= n && n - c.g.stop < a { assert !IsCeiling(Recs(c)[a - 1].status); }
    }
  }

  lemma {:induction false} NoneSkipped(c: Climber, n: nat)
    requires CleanClimber(c) && n <= |c.ctxs| && (n > 0 ==> CleanRec(c, n - 1).status != Skipped)
    ensures forall l :: 0 <= l < n ==> CleanRec(c, l).status != Skipped
  {
    if n > 1 {
      SkipsIff(c, n - 1);
      SkipsIff(c, n - 2);
      NoneSkipped(c, n - 1);
    }
  }

  // ---- the law holds ----

  lemma CleanRung(c: Climber, n: nat)
    requires CleanClimber(c) && n < |c.ctxs|
    ensures RungLaw(Recs(c), c.g.arm, c.ctxs, c.g.stop, c.g.o, n)
  {
    var raw := c.g.o(KeyAt(c, n));
    assert RawOk(raw);
    EndedIff(c, n);
    SkipsIff(c, n);
    RateOfMeasured(raw);
    if StateAt(c, n).ooms < c.g.stop && Measured(raw) {
      RoundedRate(raw);
      DegradedIff(c, n);
    }
  }

  lemma DegradedIff(c: Climber, n: nat)
    requires CleanClimber(c) && n < |c.ctxs| && StateAt(c, n).ooms < c.g.stop && Measured(c.g.o(KeyAt(c, n)))
    ensures CleanRec(c, n).status == Degraded
       <==> exists m: nat ::
              LastPassing(Recs(c), c.g.arm, c.ctxs, c.g.o, n, m) && Slower(c.g.o(KeyAt(c, n)), c.g.o(KeyAt(c, m)))
  {
    var raw := c.g.o(KeyAt(c, n));
    RateOfMeasured(raw);
    var m := BaselineIs(c, n);
    if StateAt(c, n).last.Some? {
      CliffIsSlower(raw, c.g.o(KeyAt(c, m)));
      forall l: nat | LastPassing(Recs(c), c.g.arm, c.ctxs, c.g.o, n, l) ensures l == m {}
    }
  }

  /** One record for every rung, each obeying the law. */
  ghost predicate ArmLaw(recs: seq<Rec>, arm: string, ctxs: seq<nat>, stop: int, o: Oracle) {
    |recs| == |ctxs| && forall n :: 0 <= n < |ctxs| ==> RungLaw(recs, arm, ctxs, stop, o, n)
  }

  /** Every rung of an uninterrupted climb, over any list of contexts and any reports. */
  lemma ClimbLaw(arm: string, ctxs: seq<nat>, stop: int, o: Oracle)
    requires OracleOk(o)
    ensures ArmLaw(Climb(arm, ctxs, stop, o, {}, map[], FRESH), arm, ctxs, stop, o)
  {
    var c := Climber(ctxs, Setting(arm, stop, o, {}, map[]));
    var recs := Climb(arm, ctxs, stop, o, {}, map[], FRESH);
    WholeClimb(c.g, ctxs);
    CleanAppends(c, |ctxs|);
    assert recs == Recs(c);
    forall n | 0 <= n < |ctxs| ensures RungLaw(recs, arm, ctxs, stop, o, n) { CleanRung(c, n); }
  }

  /** From one passing rung to the next, time per token grows by a factor of at most two and a half. */
  lemma PassingGrowsSlowly(recs: seq<Rec>, arm: string, ctxs: seq<nat>, stop: int, o: Oracle, m: nat, n: nat)
    requires |recs| == |ctxs| && n < |recs| && RungLaw(recs, arm, ctxs, stop, o, n)
    requires LastPassing(recs, arm, ctxs, o, n, m) && Passing(recs, arm, ctxs, o, n)
    ensures var now, was := o(Key(arm, ctxs[n])), o(Key(arm, ctxs[m]));
            now.wall * was.tokens as real <= 2.5 * (was.wall * now.tokens as real)
  {}

  // ---- whole sessions ----

  function Climbs(p: Plan, o: Oracle, arms: seq<string>): (cs: seq<seq<Rec>>)
    ensures |cs| == |arms|
            && forall a :: 0 <= a < |arms| ==> cs[a] == Climb(arms[a], p.ctxs, p.stop, o, {}, map[], FRESH)
  {
    seq(|arms|, a requires 0 <= a < |arms| => Climb(arms[a], p.ctxs, p.stop, o, {}, map[], FRESH))
  }

  lemma {:induction false} ArmsAreClimbs(p: Plan, o: Oracle, arms: seq<string>)
    ensures Arms(p, o, arms, {}, map[]) == Flat(Climbs(p, o, arms))
  {
    if arms != [] {
      ArmsAreClimbs(p, o, arms[1..]);
      assert Climbs(p, o, arms)[1..] == Climbs(p, o, arms[1..]);
    }
  }

  /** An uninterrupted session is one climb of every arm in turn, each obeying the law. */
  lemma SessionLaw(p: Plan, o: Oracle)
    requires OracleOk(o)
    ensures Session(p, o, []) == Flat(Climbs(p, o, p.arms))
    ensures forall a :: 0 <= a < |p.arms| ==> ArmLaw(Climbs(p, o, p.arms)[a], p.arms[a], p.ctxs, p.stop, o)
  {
    assert Done([], KeyOf, Failed) == {} && Latest([], KeyOf) == map[];
    ArmsAreClimbs(p, o, p.arms);
    forall a | 0 <= a < |p.arms| ensures ArmLaw(Climbs(p, o, p.arms)[a], p.arms[a], p.ctxs, p.stop, o) {
      ClimbLaw(p.arms[a], p.ctxs, p.stop, o);
    }
  }
}
