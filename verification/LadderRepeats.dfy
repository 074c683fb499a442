/** Contexts listed more than once. Restarts are transparent for every oracle with exactly recorded rates precisely when
    no context's listings can straddle the stop rule. */
module LadderRepeats {
  import opened Seqs
  import opened KeyedLog
  import opened Ladder
  import opened LadderRungs
  import opened LadderProofs
  import opened LadderDoomed
  import opened LadderLimits
  import opened LadderTransparency

  /** Climbing from the first listing of some context on, with every rung a ceiling, the stop rule falls between rungs
      `i` and `j` of one context. */
  predicate Straddles(ctxs: seq<nat>, stop: int, a: nat, i: nat, j: nat) {
    a <= i < j < |ctxs| && First(ctxs, a) && ctxs[i] == ctxs[j] && i - a < stop <= j - a
  }

  ghost predicate Straddled(ctxs: seq<nat>, stop: int) {
    exists a: nat, i: nat, j: nat :: Straddles(ctxs, stop, a, i, j)
  }

  /** Every point of contexts `lo` to `hi` dies; every other one passes without a measured rate. */
  function DiesFrom(lo: nat, hi: nat): Oracle {
    (k: Key) => Raw(if lo <= k.ctx <= hi then Died else Ok, 0.0, 0, false)
  }

  lemma DiesFromIsExact(lo: nat, hi: nat)
    ensures OracleOk(DiesFrom(lo, hi)) && ExactRates(DiesFrom(lo, hi))
  {}

  // ---- the uninterrupted run ----

  lemma {:induction false} NothingDied(c: Climber, n: nat)
    requires ClimberOk(c) && n <= |c.ctxs| && forall j :: 0 <= j < n ==> c.g.o(KeyAt(c, j)) == Raw(Ok, 0.0, 0, false)
    ensures StateAt(c, n) == FRESH
  {
    if n > 0 {
      NothingDied(c, n - 1);
      assert c.g.o(KeyAt(c, n - 1)) == Raw(Ok, 0.0, 0, false);
    }
  }

  /** From the first rung of the range on, the ceilings count up to the stop rule. */
  lemma {:induction false} DeathsCount(c: Climber, a: nat, n: nat, hi: nat)
    requires ClimberOk(c) && a <= n <= |c.ctxs| && a < |c.ctxs| && First(c.ctxs, a) && c.g.stop > 0
    requires c.g.o == DiesFrom(c.ctxs[a], hi) && forall j :: a <= j < n ==> c.ctxs[j] <= hi
    ensures StateAt(c, n).ooms == if n - a < c.g.stop then n - a else c.g.stop
    decreases n
  {
    if n == a {
      assert forall j :: 0 <= j < a ==> c.ctxs[j] <= c.ctxs[a - 1] < c.ctxs[a];
      NothingDied(c, a);
    } else {
      DeathsCount(c, a, n - 1, hi);
      assert c.ctxs[a] <= c.ctxs[n - 1];
    }
  }

  lemma DeathsSkip(c: Climber, a: nat, n: nat, hi: nat)
    requires ClimberOk(c) && a <= n < |c.ctxs| && First(c.ctxs, a) && c.g.stop > 0
    requires c.g.o == DiesFrom(c.ctxs[a], hi) && forall j :: a <= j <= n ==> c.ctxs[j] <= hi
    ensures CleanRec(c, n).status == if n - a < c.g.stop then Died else Skipped
  {
    DeathsCount(c, a, n, hi);
    SkippedIff(c, n);
    assert c.ctxs[a] <= c.ctxs[n];
  }

  // ---- exactly when ----

  /** An oracle under which the straddling context is left half launched. */
  lemma StraddleUnsettles(c: Climber, a: nat, i: nat, j: nat) returns (n: nat)
    requires ClimberOk(c) && Straddles(c.ctxs, c.g.stop, a, i, j) && c.g.o == DiesFrom(c.ctxs[a], c.ctxs[i])
    ensures n < |c.ctxs| && !Settled(c, n)
  {
    n := a + c.g.stop - 1;
    assert c.ctxs[i] <= c.ctxs[n] <= c.ctxs[n + 1] <= c.ctxs[j];
    forall l | a <= l <= n + 1 ensures c.ctxs[l] <= c.ctxs[i] { assert c.ctxs[l] <= c.ctxs[j]; }
    DeathsSkip(c, a, n, c.ctxs[i]);
    DeathsSkip(c, a, n + 1, c.ctxs[i]);
  }

  lemma NoFailures(c: Climber, lo: nat, hi: nat, n: nat)
    requires ClimberOk(c) && c.g.o == DiesFrom(lo, hi) && n < |c.ctxs|
    ensures !CleanRec(c, n).error
  {
    SkippedIff(c, n);
  }

  /** Where the run of ceilings standing before rung `n` began. */
  lemma {:induction false} RunStart(c: Climber, n: nat) returns (a: nat)
    requires ClimberOk(c) && n <= |c.ctxs| && StateAt(c, n).ooms <= c.g.stop
             && (n > 0 ==> CleanRec(c, n - 1).status != Skipped)
    ensures a <= n && n - a == StateAt(c, n).ooms
    ensures forall l :: a <= l < n ==> Ceiling(CleanRec(c, l).status)
    ensures a > 0 ==> !Ceiling(CleanRec(c, a - 1).status) && CleanRec(c, a - 1).status != Skipped
  {
    if n == 0 {
      a := 0;
    } else {
      SkippedIff(c, n - 1);
      if Ceiling(CleanRec(c, n - 1).status) {
        if n > 1 { SkippedIff(c, n - 2); }
        a := RunStart(c, n - 1);
      } else {
        a := n;
      }
    }
  }

  /** A context left half launched, under any oracle, straddles the stop rule. */
  lemma UnsettledStraddles(c: Climber, n: nat)
    requires ClimberOk(c) && n < |c.ctxs| && !Settled(c, n)
    ensures Straddled(c.ctxs, c.g.stop)
  {
    SkippedIff(c, n);
    SkippedIff(c, n + 1);
    var a := RunStart(c, n + 1);
    BlockFollows(c.g, c.ctxs, n, n + 1);
    assert Ceiling(CleanRec(c, a).status);
    if a > 0 && c.ctxs[a - 1] == c.ctxs[a] { BlockFollows(c.g, c.ctxs, a - 1, a); }
    assert Straddles(c.ctxs, c.g.stop, a, n, n + 1);
  }

  /** For any stop rule: every oracle with exactly recorded rates is restart-transparent if and only if no context's
      listings straddle the stop rule. */
  lemma ExactTransparentIff(p: Plan)
    requires Sorted(p.ctxs) && p.arms != []
    ensures (forall o :: OracleOk(o) && ExactRates(o) ==> RestartTransparent(p, o)) <==> !Straddled(p.ctxs, p.stop)
  {
    if Straddled(p.ctxs, p.stop) {
      var a: nat, i: nat, j: nat :| Straddles(p.ctxs, p.stop, a, i, j);
      var o := DiesFrom(p.ctxs[a], p.ctxs[i]);
      DiesFromIsExact(p.ctxs[a], p.ctxs[i]);
      var c := ArmOf(p, o, p.arms[0]);
      var n := StraddleUnsettles(c, a, i, j);
      NoFailures(c, p.ctxs[a], p.ctxs[i], n);
      SkipIsLost(p, o, p.arms[0], n);
    } else {
      forall o | OracleOk(o) && ExactRates(o) ensures RestartTransparent(p, o) { ExactTransparent(p, o); }
    }
  }

  lemma ExactTransparent(p: Plan, o: Oracle)
    requires Sorted(p.ctxs) && OracleOk(o) && ExactRates(o) && !Straddled(p.ctxs, p.stop)
    ensures RestartTransparent(p, o)
  {
    forall arm | arm in p.arms ensures Resumable(p, o, arm, |p.ctxs|) {
      var c := ArmOf(p, o, arm);
      ExactVerdictsStand(c);
      forall n | 0 <= n < |c.ctxs| ensures Settled(c, n) {
        if !Settled(c, n) { UnsettledStraddles(c, n); }
      }
      StandsResumable(p, o, arm);
    }
    TransparentIff(p, o);
  }

  /** Under the default stop rule of one ceiling, a straddling context is one listed twice. */
  lemma StraddledOnce(ctxs: seq<nat>)
    requires Sorted(ctxs)
    ensures Straddled(ctxs, 1) <==> !Distinct(ctxs)
  {
    if !Distinct(ctxs) {
      var i, j :| 0 <= i < j < |ctxs| && ctxs[i] == ctxs[j];
      var a := BlockStart(ctxs, i);
      assert Straddles(ctxs, 1, a, a, j);
    }
  }

  /** Distinct contexts never straddle any stop rule. */
  lemma DistinctNeverStraddles(ctxs: seq<nat>, stop: int)
    requires Distinct(ctxs)
    ensures !Straddled(ctxs, stop)
  {}

  // ---- the hidden ceiling ----

  /** What a resumed climb has counted when the straddling context hides behind its skip. */
  lemma {:induction false} CountHidden(g: Setting, ctxs: seq<nat>, b: nat, lo: nat, q: nat)
    requires q <= |ctxs| && OracleOk(g.o) && lo <= b <= |ctxs|
    requires forall l :: 0 <= l < q ==> ShowsLess(g, ctxs, lo, b, l)
    ensures Before(g, ctxs, q).ooms <= if q <= lo then 0 else if q <= b then q - lo else b - lo
  {
    if q > 0 {
      CountHidden(g, ctxs, b, lo, q - 1);
      assert ShowsLess(g, ctxs, lo, b, q - 1);
      assert RawOk(g.o(Key(g.arm, ctxs[q - 1])));
    }
  }

  /** Only rungs from `lo` on and below `b` can show a ceiling. */
  predicate ShowsLess(g: Setting, ctxs: seq<nat>, lo: nat, b: nat, l: nat)
    requires l < |ctxs|
  {
    var st := Shown(g, ctxs, l);
    && (l < lo ==> st in {Ok, Skipped}) && (lo <= l < b ==> Ceiling(st) || st in {Ok, Skipped})
       && (l >= b ==> st in {Ok, Skipped})
  }

  /** The climb that a straddling context stops: contexts from `a` on die, the last listing but one of the launched ones
      is rung `i`, and the context begins at rung `b`. */
  ghost predicate Stopped(c: Climber, a: nat, b: nat, i: nat) {
    && ClimberOk(c) && a <= b <= i && i + 1 < |c.ctxs| && First(c.ctxs, a) && First(c.ctxs, b)
    && c.ctxs[b] == c.ctxs[i] == c.ctxs[i + 1] && i + 1 - a == c.g.stop && c.g.o == DiesFrom(c.ctxs[a], c.ctxs[i])
  }

  /** The records of its rungs. */
  lemma StoppedRecords(c: Climber, a: nat, b: nat, i: nat, q: nat)
    requires Stopped(c, a, b, i) && q <= i + 1
    ensures !CleanRec(c, q).error
    ensures CleanRec(c, q).status == if q < a then Ok else if q <= i then Died else Skipped
  {
    SkippedIff(c, q);
    if q < a {
      assert forall j :: 0 <= j < a ==> c.ctxs[j] <= c.ctxs[a - 1] < c.ctxs[a];
      NothingDied(c, q);
    } else {
      forall j | a <= j <= q ensures c.ctxs[j] <= c.ctxs[i] { assert c.ctxs[j] <= c.ctxs[i + 1]; }
      DeathsSkip(c, a, q, c.ctxs[i]);
    }
  }

  /** A key of this arm in the store killed after the first skip. */
  lemma StoppedLatest(c: Climber, before: seq<Rec>, a: nat, b: nat, i: nat, k: Key) returns (q: nat)
    requires Stopped(c, a, b, i) && forall r :: r in before ==> r.key.arm != c.g.arm
    requires var log := before + Appends(c.g, c.ctxs, i + 2); k.arm == c.g.arm && k in Latest(log, KeyOf)
    ensures q <= i + 1 && KeyAt(c, q) == k
    ensures var log := before + Appends(c.g, c.ctxs, i + 2); Latest(log, KeyOf)[k] == CleanRec(c, q)
  {
    var mine := Appends(c.g, c.ctxs, i + 2);
    CleanAppends(c, i + 2);
    var l := LatestPlace(before + mine, k);
    InSecond(before, mine, l);
    q := l - |before|;
  }

  lemma LatestPlace(log: seq<Rec>, k: Key) returns (l: nat)
    requires k in Latest(log, KeyOf)
    ensures l < |log| && log[l].key == k && Latest(log, KeyOf)[k] == log[l]
  {
    LatestIsLast(log, KeyOf, k);
    l :| IsLast(log, KeyOf, k, l) && Latest(log, KeyOf)[k] == log[l];
  }

  lemma InSecond(a: seq<Rec>, b: seq<Rec>, l: nat)
    requires l < |a| + |b|
    ensures if l < |a| then (a + b)[l] in a else (a + b)[l] == b[l - |a|]
  {}

  /** Its straddling context counts as done, and shows a skip. */
  lemma StoppedHides(c: Climber, before: seq<Rec>, a: nat, b: nat, i: nat)
    requires Stopped(c, a, b, i)
    ensures var log, k := before + Appends(c.g, c.ctxs, i + 2), KeyAt(c, i);
            k in Done(log, KeyOf, Failed) && k in Latest(log, KeyOf) && Latest(log, KeyOf)[k].status == Skipped
  {
    StoppedRecords(c, a, b, i, i + 1);
    Assoc(before, Appends(c.g, c.ctxs, i + 1), [CleanRec(c, i + 1)]);
    EndsWith(before + Appends(c.g, c.ctxs, i + 1), CleanRec(c, i + 1));
  }

  lemma DoneHasLatest(log: seq<Rec>, k: Key)
    requires k in Done(log, KeyOf, Failed)
    ensures k in Latest(log, KeyOf)
  {
    DoneHas(log, KeyOf, Failed, k);
    LatestIsLast(log, KeyOf, k);
  }

  /** A recorded key lies where its context lies. */
  lemma SamePlace(ctxs: seq<nat>, a: nat, q: nat, l: nat)
    requires Sorted(ctxs) && q < |ctxs| && l < |ctxs| && a < |ctxs| && First(ctxs, a) && ctxs[q] == ctxs[l]
    ensures q < a <==> l < a
  {
    if q < a <= l { Apart(ctxs, q, a, l); }
    if l < a <= q { Apart(ctxs, l, a, q); }
  }

  lemma Above(ctxs: seq<nat>, i: nat, n: nat)
    requires Sorted(ctxs) && i < |ctxs| && n < |ctxs| && ctxs[i] < ctxs[n]
    ensures i < n
  {}

  lemma StoppedShows(c: Climber, before: seq<Rec>, a: nat, b: nat, i: nat, l: nat)
    requires Stopped(c, a, b, i) && l < |c.ctxs| && forall r :: r in before ==> r.key.arm != c.g.arm
    ensures var log := before + Appends(c.g, c.ctxs, i + 2);
            ShowsLess(Resumed(c, Done(log, KeyOf, Failed), Latest(log, KeyOf)), c.ctxs, a, b, l)
  {
    var log, k := before + Appends(c.g, c.ctxs, i + 2), KeyAt(c, l);
    assert RawOk(c.g.o(k));
    if c.ctxs[l] == c.ctxs[i] {
      StoppedHides(c, before, a, b, i);
      SamePlace(c.ctxs, b, i, l);
    } else {
      if k in Done(log, KeyOf, Failed) {
        DoneHasLatest(log, k);
        var q := StoppedLatest(c, before, a, b, i, k);
        StoppedRecords(c, a, b, i, q);
        SamePlace(c.ctxs, a, q, l);
        SamePlace(c.ctxs, b, q, l);
        NotInBlock(c.ctxs, b, i + 1, q);
      }
      if l < a || l >= b { OkOutside(c, a, b, i, l); }
    }
  }

  lemma NotInBlock(ctxs: seq<nat>, b: nat, e: nat, q: nat)
    requires Sorted(ctxs) && b <= e < |ctxs| && ctxs[b] == ctxs[e] && q <= e && ctxs[q] != ctxs[b]
    ensures q < b
  {
    if q >= b { InBlock(ctxs, b, e, q); }
  }

  lemma OkOutside(c: Climber, a: nat, b: nat, i: nat, l: nat)
    requires Stopped(c, a, b, i) && l < |c.ctxs| && (l < a || l >= b) && c.ctxs[l] != c.ctxs[i]
    ensures c.g.o(KeyAt(c, l)) == Raw(Ok, 0.0, 0, false)
  {
    if l < a {
      assert c.ctxs[l] <= c.ctxs[a - 1] < c.ctxs[a];
    } else {
      assert c.ctxs[b] <= c.ctxs[l];
    }
  }

  /** A straddling context hides its ceiling: killed after its first skip, the resumed run launches the next context
      above, though the uninterrupted run skips it. */
  lemma RepeatedContextHidesCeiling(p: Plan, a: nat, b: nat, i: nat, n: nat) returns (kill: nat)
    requires p.arms != [] && n < |p.ctxs| && First(p.ctxs, n)
    requires i < |p.ctxs| && a < |p.ctxs| && p.ctxs[i] < p.ctxs[n]
    requires Stopped(ArmOf(p, DiesFrom(p.ctxs[a], p.ctxs[i]), p.arms[0]), a, b, i)
    ensures var o, k := DiesFrom(p.ctxs[a], p.ctxs[i]), Key(p.arms[0], p.ctxs[n]);
            && (exists r :: r in Session(p, o, Killed(p, o, [kill])) && r.key == k && r.status != Skipped)
            && k in Latest(Session(p, o, []), KeyOf) && Latest(Session(p, o, []), KeyOf)[k].status == Skipped
  {
    var o := DiesFrom(p.ctxs[a], p.ctxs[i]);
    UninterruptedSkips(p, o, a, b, i, n);
    kill := ResumedLaunches(p, o, a, b, i, n);
  }

  lemma ResumedLaunches(p: Plan, o: Oracle, a: nat, b: nat, i: nat, n: nat) returns (kill: nat)
    requires p.arms != [] && n < |p.ctxs| && Stopped(ArmOf(p, o, p.arms[0]), a, b, i) && p.ctxs[i] < p.ctxs[n]
    ensures exists r ::
              r in Session(p, o, Killed(p, o, [kill])) && r.key == Key(p.arms[0], p.ctxs[n]) && r.status != Skipped
  {
    var before;
    kill, before := KilledAt(p, o, p.arms[0], i + 2);
    var log := Killed(p, o, [kill]);
    ResumedReaches(p, o, log, before, a, b, i, n);
    LaunchAppears(p, o, log, p.arms[0], n);
  }

  lemma UninterruptedSkips(p: Plan, o: Oracle, a: nat, b: nat, i: nat, n: nat)
    requires p.arms != [] && n < |p.ctxs| && Stopped(ArmOf(p, o, p.arms[0]), a, b, i) && p.ctxs[i] < p.ctxs[n]
    ensures var k, m := Key(p.arms[0], p.ctxs[n]), Latest(Session(p, o, []), KeyOf);
            k in m && m[k].status == Skipped
  {
    var c := ArmOf(p, o, p.arms[0]);
    Above(c.ctxs, i + 1, n);
    StoppedRecords(c, a, b, i, i + 1);
    SkippedForGood(c, i + 1, n);
    CleanLatest(p, o, p.arms[0], n);
  }

  lemma ResumedReaches(p: Plan, o: Oracle, log: seq<Rec>, before: seq<Rec>, a: nat, b: nat, i: nat, n: nat)
    requires p.arms != [] && n < |p.ctxs| && Stopped(ArmOf(p, o, p.arms[0]), a, b, i) && p.ctxs[i] < p.ctxs[n]
    requires log == before + Appends(ArmOf(p, o, p.arms[0]).g, p.ctxs, i + 2)
             && forall r :: r in before ==> r.key.arm != p.arms[0]
    ensures Key(p.arms[0], p.ctxs[n]) !in Done(log, KeyOf, Failed)
    ensures Before(SettingOf(p, o, p.arms[0], log), p.ctxs, n).ooms < p.stop
  {
    var c := ArmOf(p, o, p.arms[0]);
    var g := SettingOf(p, o, p.arms[0], log);
    assert g == Resumed(c, Done(log, KeyOf, Failed), Latest(log, KeyOf));
    forall l | 0 <= l < n ensures ShowsLess(g, p.ctxs, a, b, l) { StoppedShows(c, before, a, b, i, l); }
    CountHidden(g, p.ctxs, b, a, n);
    NotYet(c, before, a, b, i, n);
  }

  /** A context above the killed one is not in the store. */
  lemma NotYet(c: Climber, before: seq<Rec>, a: nat, b: nat, i: nat, n: nat)
    requires Stopped(c, a, b, i) && n < |c.ctxs| && c.ctxs[i] < c.ctxs[n]
             && forall r :: r in before ==> r.key.arm != c.g.arm
    ensures KeyAt(c, n) !in Done(before + Appends(c.g, c.ctxs, i + 2), KeyOf, Failed)
  {
    var log, k := before + Appends(c.g, c.ctxs, i + 2), KeyAt(c, n);
    DoneHas(log, KeyOf, Failed, k);
    CleanAppends(c, i + 2);
    forall j | 0 <= j < |log| ensures log[j].key != k {
      InSecond(before, Appends(c.g, c.ctxs, i + 2), j);
      if j >= |before| { assert c.ctxs[j - |before|] <= c.ctxs[i + 1]; }
    }
  }

  lemma {:induction false} AppendsHas(g: Setting, ctxs: seq<nat>, n: nat, q: nat)
    requires q < n <= |ctxs| && Key(g.arm, ctxs[q]) !in g.done
    ensures Output(g, ctxs[q], Before(g, ctxs, q))[0] in Appends(g, ctxs, n)
  {
    if q < n - 1 { AppendsHas(g, ctxs, n - 1, q); }
  }

  lemma LaunchAppears(p: Plan, o: Oracle, log: seq<Rec>, arm: string, n: nat)
    requires OracleOk(o) && p.arms != [] && arm == p.arms[0] && n < |p.ctxs|
             && Key(arm, p.ctxs[n]) !in Done(log, KeyOf, Failed)
    requires Before(SettingOf(p, o, arm, log), p.ctxs, n).ooms < p.stop
    ensures exists r :: r in Session(p, o, log) && r.key == Key(arm, p.ctxs[n]) && r.status != Skipped
  {
    var g := SettingOf(p, o, arm, log);
    var r := Output(g, p.ctxs[n], Before(g, p.ctxs, n))[0];
    assert RawOk(o(r.key));
    WholeClimb(g, p.ctxs);
    AppendsHas(g, p.ctxs, |p.ctxs|, n);
    assert r in Session(p, o, log);
  }
}
