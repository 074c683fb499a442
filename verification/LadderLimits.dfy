/** When restart transparency fails, and the exact condition under which it holds. */
module LadderLimits {
  import opened Seqs
  import opened Options
  import opened KeyedLog
  import opened Ladder
  import opened LadderRungs
  import opened LadderProofs
  import opened LadderDoomed

  /** Every kill schedule ends with the records of an uninterrupted run. */
  ghost predicate RestartTransparent(p: Plan, o: Oracle) {
    forall kills: seq<nat> ::
      var log := Killed(p, o, kills);
      Latest(log + Session(p, o, log), KeyOf) == Latest(Session(p, o, []), KeyOf)
  }

  // ---- killing at a rung ----

  /** A kill that lets a session reach rung `q` of an arm for the first time, and no further. */
  lemma {:induction false} ReachRung(p: Plan, o: Oracle, arms: seq<string>, g: Setting, q: nat)
    returns (kill: nat, before: seq<Rec>)
    requires g.arm in arms && g.stop == p.stop && g.o == o && q <= |p.ctxs|
    ensures var s := Arms(p, o, arms, g.done, g.latest);
            kill <= |s| && s[..kill] == before + Appends(g, p.ctxs, q)
    ensures forall r :: r in before ==> r.key.arm != g.arm
  {
    var first := g.(arm := arms[0]);
    var mine, others := Appends(first, p.ctxs, |p.ctxs|), Arms(p, o, arms[1..], g.done, g.latest);
    ArmsUnfold(p, o, arms, g.done, g.latest);
    if arms[0] == g.arm {
      kill, before := |Appends(g, p.ctxs, q)|, [];
      AppendsPrefix(g, p.ctxs, q, |p.ctxs|);
      TakePart(mine, others, kill);
      assert [] + Appends(g, p.ctxs, q) == Appends(g, p.ctxs, q);
    } else {
      var k, b := ReachRung(p, o, arms[1..], g, q);
      AppendsFresh(first, p.ctxs, |p.ctxs|);
      kill, before := |mine| + k, mine + b;
      TakeAfter(mine, others, k);
      Assoc(mine, b, Appends(g, p.ctxs, q));
    }
  }

  lemma TakeAfter<T>(a: seq<T>, b: seq<T>, k: nat)
    requires k <= |b|
    ensures (a + b)[..|a| + k] == a + b[..k]
  {}

  lemma {:induction false} AppendsPrefix(g: Setting, ctxs: seq<nat>, q: nat, n: nat)
    requires q <= n <= |ctxs|
    ensures |Appends(g, ctxs, q)| <= |Appends(g, ctxs, n)|
    ensures Appends(g, ctxs, n)[..|Appends(g, ctxs, q)|] == Appends(g, ctxs, q)
  {
    if q < n {
      AppendsPrefix(g, ctxs, q, n - 1);
      TakePart(Appends(g, ctxs, n - 1), Output(g, ctxs[n - 1], Before(g, ctxs, n - 1)), |Appends(g, ctxs, q)|);
    }
  }

  /** One more session killed so. */
  lemma KilledNext(p: Plan, o: Oracle, kills: seq<nat>, log: seq<Rec>, arm: string, q: nat)
    returns (more: seq<nat>, before: seq<Rec>, after: seq<Rec>)
    requires log == Killed(p, o, kills) && arm in p.arms && q <= |p.ctxs|
    ensures after == Killed(p, o, more) && after == log + (before + Appends(SettingOf(p, o, arm, log), p.ctxs, q))
    ensures forall r :: r in before ==> r.key.arm != arm
  {
    var kill;
    kill, before := ReachRung(p, o, p.arms, SettingOf(p, o, arm, log), q);
    more := kills + [kill];
    assert more[..|kills|] == kills;
    after := Killed(p, o, more);
  }

  /** The store after the first session is killed so. */
  lemma KilledAt(p: Plan, o: Oracle, arm: string, q: nat) returns (kill: nat, before: seq<Rec>)
    requires arm in p.arms && q <= |p.ctxs|
    ensures Killed(p, o, [kill]) == before + Appends(ArmOf(p, o, arm).g, p.ctxs, q)
    ensures forall r :: r in before ==> r.key.arm != arm
  {
    kill, before := ReachRung(p, o, p.arms, ArmOf(p, o, arm).g, q);
    FirstKill(p, o, kill);
  }

  lemma FirstKill(p: Plan, o: Oracle, kill: nat)
    requires kill <= |Arms(p, o, p.arms, {}, map[])|
    ensures Killed(p, o, [kill]) == Arms(p, o, p.arms, {}, map[])[..kill]
  {
    assert Done([], KeyOf, Failed) == {} && Latest([], KeyOf) == map[];
    assert [kill][..0] == [] && Killed(p, o, []) == [];
    assert [] + Session(p, o, [])[..kill] == Session(p, o, [])[..kill];
  }

  lemma {:induction false} CleanAppends(c: Climber, q: nat)
    requires c.g.done == {} && q <= |c.ctxs|
    ensures |Appends(c.g, c.ctxs, q)| == q && forall i :: 0 <= i < q ==> Appends(c.g, c.ctxs, q)[i] == CleanRec(c, i)
  {
    if q > 0 { CleanAppends(c, q - 1); }
  }

  /** It holds the arm's first rungs, and no others of that arm. */
  lemma HoldsAt(c: Climber, before: seq<Rec>)
    requires ClimberOk(c) && forall r :: r in before ==> r.key.arm != c.g.arm
    ensures Holds(c, before + Appends(c.g, c.ctxs, |c.ctxs|), |c.ctxs|)
  {
    var q := |c.ctxs|;
    CleanAppends(c, q);
    var a := Appends(c.g, c.ctxs, q);
    forall r | r in before + a && Of(c, r) ensures Among(c, r, q) {
      var i :| 0 <= i < |a| && a[i] == r;
    }
    forall i | 0 <= i < q ensures CleanRec(c, i) in before + a { assert a[i] == CleanRec(c, i); }
  }

  // ---- a verdict that does not stand ----

  /** What any session leaves of a rung it did not hold follows what the rung showed. */
  lemma LatestFollowsRung(p: Plan, o: Oracle, log: seq<Rec>, arm: string, n: nat)
    requires OracleOk(o) && Sorted(p.ctxs) && arm in p.arms && n < |p.ctxs|
    requires Key(arm, p.ctxs[n]) !in Done(log, KeyOf, Failed)
    ensures var k, m := Key(arm, p.ctxs[n]), Latest(log + Session(p, o, log), KeyOf);
            k in m && Follows(m[k].status, Shown(SettingOf(p, o, arm, log), p.ctxs, n))
  {
    var g, e := SettingOf(p, o, arm, log), LastOf(p.ctxs, n);
    LatestAfterArms(p, o, p.arms, g, log, e);
    BlockFollows(g, p.ctxs, n, e);
  }

  /** Uninterrupted, likewise. */
  lemma CleanLatest(p: Plan, o: Oracle, arm: string, n: nat)
    requires OracleOk(o) && Sorted(p.ctxs) && arm in p.arms && n < |p.ctxs|
    ensures var k, m := Key(arm, p.ctxs[n]), Latest(Session(p, o, []), KeyOf);
            k in m && Follows(m[k].status, CleanRec(ArmOf(p, o, arm), n).status)
  {
    assert Done([], KeyOf, Failed) == {} && Latest([], KeyOf) == map[];
    LatestFollowsRung(p, o, [], arm, n);
    assert [] + Session(p, o, []) == Session(p, o, []);
  }

  /** Killed right before a rung whose verdict does not stand, the resumed run judges it the other way. */
  lemma VerdictFlips(p: Plan, o: Oracle, arm: string, n: nat)
    requires arm in p.arms && n < |p.ctxs| && ClimberOk(ArmOf(p, o, arm)) && AllSettled(Lower(ArmOf(p, o, arm), n))
    requires !VerdictStands(ArmOf(p, o, arm), n)
    ensures !RestartTransparent(p, o)
  {
    var k := Key(arm, p.ctxs[n]);
    var kill := KilledBefore(p, o, arm, n);
    var log := Killed(p, o, [kill]);
    LatestFollowsRung(p, o, log, arm, n);
    CleanLatest(p, o, arm, n);
    assert RawOk(o(k));
    assert Latest(log + Session(p, o, log), KeyOf)[k] != Latest(Session(p, o, []), KeyOf)[k];
  }

  /** A store killed right before the first rung of a context: resumed, the arm reaches that rung with the replay's
      baseline. */
  lemma KilledBefore(p: Plan, o: Oracle, arm: string, n: nat) returns (kill: nat)
    requires arm in p.arms && n < |p.ctxs| && ClimberOk(ArmOf(p, o, arm)) && First(p.ctxs, n)
    requires AllSettled(Lower(ArmOf(p, o, arm), n))
    ensures var log, c := Killed(p, o, [kill]), ArmOf(p, o, arm);
            var s := Before(SettingOf(p, o, arm, log), p.ctxs, n);
            && KeyAt(c, n) !in Done(log, KeyOf, Failed)
            && s.ooms == StateAt(c, n).ooms && s.last == Replayed(c, n)
  {
    var c := ArmOf(p, o, arm);
    var before;
    kill, before := KilledAt(p, o, arm, n);
    var log := Killed(p, o, [kill]);
    LowerHolds(p, o, arm, n, before);
    LowerReplays(p, o, arm, n, log);
    NotReached(c, before, n);
  }

  /** Such a store holds the lower rungs. */
  lemma LowerHolds(p: Plan, o: Oracle, arm: string, n: nat, before: seq<Rec>)
    requires n <= |p.ctxs| && ClimberOk(ArmOf(p, o, arm)) && forall r :: r in before ==> r.key.arm != arm
    ensures Holds(Lower(ArmOf(p, o, arm), n), before + Appends(ArmOf(p, o, arm).g, p.ctxs, n), n)
  {
    HoldsAt(Lower(ArmOf(p, o, arm), n), before);
    SamePart(ArmOf(p, o, arm).g, p.ctxs, n, n);
  }

  /** Any store that holds them replays them. */
  lemma LowerReplays(p: Plan, o: Oracle, arm: string, n: nat, log: seq<Rec>)
    requires n <= |p.ctxs| && ClimberOk(ArmOf(p, o, arm)) && AllSettled(Lower(ArmOf(p, o, arm), n))
    requires Holds(Lower(ArmOf(p, o, arm), n), log, n)
    ensures var c, s := ArmOf(p, o, arm), Before(SettingOf(p, o, arm, log), p.ctxs, n);
            s.ooms == StateAt(c, n).ooms && s.last == Replayed(c, n)
  {
    var c, g := Lower(ArmOf(p, o, arm), n), SettingOf(p, o, arm, log);
    HeldFromLog(c, log, n);
    assert g == Resumed(c, g.done, g.latest);
    ReplayTo(c, n, g.done, g.latest, n);
    SamePart(g, p.ctxs, n, n);
    SamePart(c.g, p.ctxs, n, n);
    LowerReplayed(ArmOf(p, o, arm), n, n);
  }

  lemma {:induction false} LowerReplayed(c: Climber, b: nat, n: nat)
    requires n <= b <= |c.ctxs| && c.g.done == {}
    ensures Replayed(Lower(c, b), n) == Replayed(c, n)
  {
    if n > 0 {
      LowerReplayed(c, b, n - 1);
      SamePart(c.g, c.ctxs, b, n - 1);
    }
  }

  /** The contexts above are not in it. */
  lemma NotReached(c: Climber, before: seq<Rec>, n: nat)
    requires ClimberOk(c) && n < |c.ctxs| && First(c.ctxs, n) && forall r :: r in before ==> r.key.arm != c.g.arm
    ensures KeyAt(c, n) !in Done(before + Appends(c.g, c.ctxs, n), KeyOf, Failed)
  {
    var log := before + Appends(c.g, c.ctxs, n);
    SamePart(c.g, c.ctxs, n, n);
    AppendsFresh(c.g, c.ctxs[..n], n);
    NotBelow(c.ctxs, n, n);
    DoneHas(log, KeyOf, Failed, KeyAt(c, n));
    assert forall r :: r in log ==> r.key != KeyAt(c, n);
  }

  // ---- a context left half launched ----

  /** Killed right after the last launch of a context whose further listings are skipped, the resumed run keeps that
      launch's record; uninterrupted, a skip supersedes it. */
  lemma SkipIsLost(p: Plan, o: Oracle, arm: string, n: nat)
    requires arm in p.arms && n < |p.ctxs| && ClimberOk(ArmOf(p, o, arm))
    requires !Settled(ArmOf(p, o, arm), n) && !CleanRec(ArmOf(p, o, arm), n).error
    ensures !RestartTransparent(p, o)
  {
    var kill := KilledAfter(p, o, arm, n);
    CleanLatest(p, o, arm, n + 1);
    DoneStands(p, o, [kill], Key(arm, p.ctxs[n]));
  }

  /** What counts as done keeps its latest record. */
  lemma DoneStands(p: Plan, o: Oracle, kills: seq<nat>, k: Key)
    requires var log, clean := Killed(p, o, kills), Latest(Session(p, o, []), KeyOf);
             && k in Done(log, KeyOf, Failed) && k in Latest(log, KeyOf) && k in clean
             && Latest(log, KeyOf)[k].status != clean[k].status
    ensures !RestartTransparent(p, o)
  {
    var log := Killed(p, o, kills);
    var s := Session(p, o, log);
    ArmsFresh(p, o, p.arms, Done(log, KeyOf, Failed), Latest(log, KeyOf));
    LatestUntouched(log, s, k);
    assert Latest(log + s, KeyOf)[k] != Latest(Session(p, o, []), KeyOf)[k];
  }

  /** A store killed right after a rung that did not fail. */
  lemma KilledAfter(p: Plan, o: Oracle, arm: string, n: nat) returns (kill: nat)
    requires arm in p.arms && n < |p.ctxs| && ClimberOk(ArmOf(p, o, arm)) && !CleanRec(ArmOf(p, o, arm), n).error
    ensures var k, log := Key(arm, p.ctxs[n]), Killed(p, o, [kill]);
            && k in Done(log, KeyOf, Failed) && k in Latest(log, KeyOf)
            && Latest(log, KeyOf)[k] == CleanRec(ArmOf(p, o, arm), n)
  {
    var c := ArmOf(p, o, arm);
    var before;
    kill, before := KilledAt(p, o, arm, n + 1);
    var first, r := before + Appends(c.g, p.ctxs, n), CleanRec(c, n);
    Assoc(before, Appends(c.g, p.ctxs, n), [r]);
    EndsWith(first, r);
  }

  lemma EndsWith(first: seq<Rec>, r: Rec)
    requires !r.error
    ensures r.key in Done(first + [r], KeyOf, Failed) && r.key in Latest(first + [r], KeyOf)
    ensures Latest(first + [r], KeyOf)[r.key] == r
  {
    LatestSnoc(first, r);
    DoneSnoc(first, r);
  }

  /** A kill that lets a session that lists an arm twice reach rung `q` for the second time. */
  lemma {:induction false} ReachAgain(p: Plan, o: Oracle, arms: seq<string>, g: Setting, q: nat)
    returns (kill: nat, before: seq<Rec>)
    requires !Once(arms, g.arm) && g.stop == p.stop && g.o == o && q <= |p.ctxs|
    ensures var s := Arms(p, o, arms, g.done, g.latest);
            kill <= |s| && s[..kill] == before + Appends(g, p.ctxs, q)
    ensures forall r :: r in Appends(g, p.ctxs, |p.ctxs|) ==> r in before
  {
    var i: nat, j: nat :| i < j < |arms| && arms[i] == g.arm && arms[j] == g.arm;
    var first := g.(arm := arms[0]);
    var mine, others := Appends(first, p.ctxs, |p.ctxs|), Arms(p, o, arms[1..], g.done, g.latest);
    ArmsUnfold(p, o, arms, g.done, g.latest);
    var k, b;
    if arms[0] == g.arm {
      assert arms[1..][j - 1] == g.arm;
      k, b := ReachRung(p, o, arms[1..], g, q);
    } else {
      assert arms[1..][i - 1] == g.arm && arms[1..][j - 1] == g.arm;
      k, b := ReachAgain(p, o, arms[1..], g, q);
    }
    kill, before := |mine| + k, mine + b;
    TakeAfter(mine, others, k);
    Assoc(mine, b, Appends(g, p.ctxs, q));
  }

  /** For an arm listed twice, a context left half launched shows even if its launches fail: killed at the second
      climb's last launch, the skip of the first climb counts as done and the launch's record comes after it. */
  lemma TwiceLaunched(p: Plan, o: Oracle, arm: string, n: nat)
    requires arm in p.arms && n < |p.ctxs| && ClimberOk(ArmOf(p, o, arm)) && !Once(p.arms, arm)
    requires !Settled(ArmOf(p, o, arm), n)
    ensures !RestartTransparent(p, o)
  {
    var c, k := ArmOf(p, o, arm), Key(arm, p.ctxs[n]);
    var kill, before := ReachAgain(p, o, p.arms, c.g, n + 1);
    FirstKill(p, o, kill);
    var first, log := before + Appends(c.g, p.ctxs, n), Killed(p, o, [kill]);
    Assoc(before, Appends(c.g, p.ctxs, n), [CleanRec(c, n)]);
    LatestSnoc(first, CleanRec(c, n));
    CleanAppends(c, |p.ctxs|);
    assert Appends(c.g, p.ctxs, |p.ctxs|)[n + 1] == CleanRec(c, n + 1);
    SkippedIff(c, n + 1);
    RecordedDone(log, CleanRec(c, n + 1));
    CleanLatest(p, o, arm, n + 1);
    DoneStands(p, o, [kill], k);
  }

  lemma RecordedDone(log: seq<Rec>, r: Rec)
    requires r in log && !r.error
    ensures r.key in Done(log, KeyOf, Failed)
  {
    DoneHas(log, KeyOf, Failed, r.key);
    var i :| 0 <= i < |log| && log[i] == r;
    assert !Failed(log[i]) && KeyOf(log[i]) == Some(r.key);
  }

  ghost predicate Distinct<T>(s: seq<T>) {
    forall i, j :: 0 <= i < j < |s| ==> s[i] != s[j]
  }

  /** With distinct contexts only the verdicts matter. */
  lemma DistinctSettled(c: Climber)
    requires c.g.done == {} && Distinct(c.ctxs)
    ensures AllSettled(c)
  {}

  // ---- rates in the recorded thousandths ----

  /** A rate that rounding leaves alone and replay does not read as missing. */
  predicate Exact(r: Option<real>) {
    r.Some? ==> Round3(r.value) == r.value && r.value != 0.0
  }

  ghost predicate ExactRates(o: Oracle) {
    forall k :: Exact(RateOf(o(k)))
  }

  /** When every measured rate is a non-zero number of thousandths the two baselines never part. */
  lemma {:induction false} ExactBaseline(c: Climber, n: nat)
    requires ClimberOk(c) && ExactRates(c.g.o) && n <= |c.ctxs|
    ensures Replayed(c, n) == StateAt(c, n).last
  {
    if n > 0 {
      ExactBaseline(c, n - 1);
      assert Exact(RateAt(c, n - 1)) && RawOk(c.g.o(KeyAt(c, n - 1)));
    }
  }

  lemma ExactVerdictsStand(c: Climber)
    requires ClimberOk(c) && ExactRates(c.g.o)
    ensures VerdictsStand(c)
  {
    forall n | 0 <= n < |c.ctxs| ensures VerdictStands(c, n) { ExactBaseline(c, n); }
  }

  // ---- a concrete failure ----

  /** Two rungs: 1.0004 s per thousand tokens, stored as 1.0, then 2.5005. */
  function Jitter(k: Key): Raw {
    Raw(Ok, (if k.ctx <= 8192 then 1.0004 else 2.5005) * (k.ctx as real / 1000.0), k.ctx, false)
  }

  /** Uninterrupted, the second rung passes (2.5005 is below 2.5 times 1.0004); resumed between the two
      it is a latency cliff (2.5005 exceeds 2.5 times 1.0). */
  lemma RoundingBreaksTransparency()
    ensures var p := Plan(["dense"], [8192, 16384], 1);
            OracleOk(Jitter) && Sorted(p.ctxs) && Distinct(p.ctxs) && !RestartTransparent(p, Jitter)
  {
    var p := Plan(["dense"], [8192, 16384], 1);
    var c := ArmOf(p, Jitter, "dense");
    DistinctSettled(Lower(c, 1));
    JitterDisagrees();
    VerdictFlips(p, Jitter, "dense", 1);
  }

  lemma JitterDisagrees()
    ensures !VerdictStands(ArmOf(Plan(["dense"], [8192, 16384], 1), Jitter, "dense"), 1)
  {
    var c := ArmOf(Plan(["dense"], [8192, 16384], 1), Jitter, "dense");
    assert RateAt(c, 0) == Some(1.0004);
    assert RateAt(c, 1) == Some(2.5005);
    assert Round3(1.0004) == 1.0 by { assert 1.0004 * 1000.0 == 1000.4; }
    assert StateAt(c, 0) == FRESH;
    assert CleanRec(c, 0) == Rec(Key("dense", 8192), Ok, Some(1.0), false);
    assert StateAt(c, 1) == Live(0, Some(1.0004)) && Replayed(c, 1) == Some(1.0);
  }

  // ---- the ceiling ----

  /** Once skipped, always skipped: an arm's climb never comes back from its ceiling. */
  lemma {:induction false} SkippedForGood(c: Climber, i: nat, j: nat)
    requires ClimberOk(c) && i <= j < |c.ctxs| && CleanRec(c, i).status == Skipped
    ensures CleanRec(c, j).status == Skipped && StateAt(c, j) == StateAt(c, i)
    decreases j
  {
    SkippedIff(c, i);
    if i < j {
      SkippedForGood(c, i, j - 1);
      SkippedIff(c, j - 1);
      SkippedIff(c, j);
    }
  }

  /** As many ceilings in a row as the stop rule asks for end the arm. */
  lemma {:induction false} CeilingsStop(c: Climber, i: nat, j: nat)
    requires ClimberOk(c) && i <= j < |c.ctxs| && StateAt(c, i).ooms + (j - i) >= c.g.stop
    requires forall n :: i <= n < j ==> Ceiling(CleanRec(c, n).status)
    ensures CleanRec(c, j).status == Skipped
  {
    CeilingsCount(c, i, j);
    SkippedIff(c, j);
  }

  lemma {:induction false} CeilingsCount(c: Climber, i: nat, j: nat)
    requires ClimberOk(c) && i <= j <= |c.ctxs| && forall n :: i <= n < j ==> Ceiling(CleanRec(c, n).status)
    ensures StateAt(c, j).ooms == StateAt(c, i).ooms + (j - i)
    decreases j
  {
    if i < j {
      CeilingsCount(c, i, j - 1);
      SkippedIff(c, j - 1);
    }
  }

  lemma HeldTwice(c: Climber, a: seq<Rec>, b: seq<Rec>, r: Rec)
    requires c.g.done == {} && Holds(c, a, |c.ctxs|) && Holds(c, b, |c.ctxs|) && r in a && Of(c, r)
    ensures r in b
  {
    var i :| 0 <= i < |c.ctxs| && r == CleanRec(c, i);
  }

  /** When verdicts stand and contexts settle, a session after any kills launches only points the uninterrupted run
      launches too, and records them alike. */
  lemma ResumedLaunchesAreClean(p: Plan, o: Oracle, kills: seq<nat>, r: Rec)
    requires AllStand(p, o) && r in Session(p, o, Killed(p, o, kills))
    ensures r in Session(p, o, [])
  {
    var log := Killed(p, o, kills);
    ArmsFresh(p, o, p.arms, Done(log, KeyOf, Failed), Latest(log, KeyOf));
    var c := ArmOf(p, o, r.key.arm);
    WholeIsPart(p, o, r.key.arm);
    FinishedHolds(p, c, kills);
    FinishedHolds(p, c, []);
    assert [] + Session(p, o, []) == Session(p, o, []) && Killed(p, o, []) == [];
    HeldTwice(c, log + Session(p, o, log), Session(p, o, []), r);
  }
}
