/** Exactly when restarting the ladder is transparent, for every plan with sorted contexts and every oracle. */
module LadderTransparency {
  import opened Options
  import opened KeyedLog
  import opened Ladder
  import opened LadderRungs
  import opened LadderProofs
  import opened LadderDoomed
  import opened LadderLimits

  // ---- hiding doomed contexts ----

  /** The store holds the rungs below `b`, counts the contexts up to rung `i` as done, the latest record of each being a
      skip, and has nothing of the contexts above. */
  ghost predicate Hidden(c: Climber, b: nat, log: seq<Rec>, i: nat)
    requires c.g.done == {}
  {
    && b <= i <= |c.ctxs| && (i < |c.ctxs| ==> First(c.ctxs, i)) && Holds(Lower(c, b), log, b)
    && AllSkipped(c, log, b, i) && NoneFrom(c, log, i)
  }

  ghost predicate AllSkipped(c: Climber, log: seq<Rec>, b: nat, i: nat)
    requires i <= |c.ctxs|
  {
    forall j :: b <= j < i ==> SkippedIn(log, KeyAt(c, j))
  }

  ghost predicate NoneFrom(c: Climber, log: seq<Rec>, i: nat) {
    forall j :: i <= j < |c.ctxs| ==> Absent(log, KeyAt(c, j))
  }

  ghost predicate SkippedIn(log: seq<Rec>, k: Key) {
    match LatestOf(log, k)
    case None => false
    case Some(r) => r.status == Skipped && k in Done(log, KeyOf, Failed)
  }

  function LatestOf(log: seq<Rec>, k: Key): Option<Rec> {
    if k in Latest(log, KeyOf) then Some(Latest(log, KeyOf)[k]) else None
  }

  ghost predicate Absent(log: seq<Rec>, k: Key) {
    forall r :: r in log ==> r.key != k
  }

  /** The uninterrupted run ends with every context from rung `b` on skipped. */
  ghost predicate EndsSkipped(p: Plan, o: Oracle, arm: string, b: nat) {
    forall j :: b <= j < |p.ctxs| ==> ShowsSkip(Latest(Session(p, o, []), KeyOf), Key(arm, p.ctxs[j]))
  }

  predicate ShowsSkip(m: map<Key, Rec>, k: Key) {
    k in m && m[k].status == Skipped
  }

  /** A climb below whose rung `b` nothing goes wrong. */
  ghost predicate Poised(p: Plan, o: Oracle, arm: string, b: nat) {
    match ArmOf(p, o, arm)
    case Climber(ctxs, g) =>
      && arm in p.arms && b < |ctxs| && First(ctxs, b)
      && ClimberOk(Climber(ctxs, g)) && Stands(Lower(Climber(ctxs, g), b)) && StateAt(Climber(ctxs, g), b).ooms < g.stop
  }

  /** Hidden contexts leave the count as it is. */
  lemma {:induction false} HiddenRests(c: Climber, b: nat, log: seq<Rec>, g: Setting, i: nat, n: nat)
    requires b <= n <= i <= |c.ctxs| && AllSkipped(c, log, b, i) && g.arm == c.g.arm
    requires g.done == Done(log, KeyOf, Failed) && g.latest == Latest(log, KeyOf)
    ensures Before(g, c.ctxs, n) == Before(g, c.ctxs, b)
    decreases n
  {
    if b < n {
      HiddenRests(c, b, log, g, i, n - 1);
      assert SkippedIn(log, KeyAt(c, n - 1));
    }
  }

  /** So a resumed climb arrives behind them with the count it had before them. */
  lemma Arrives(p: Plan, o: Oracle, arm: string, b: nat, log: seq<Rec>, i: nat)
    requires Poised(p, o, arm, b) && Hidden(ArmOf(p, o, arm), b, log, i)
    ensures Before(SettingOf(p, o, arm, log), p.ctxs, i).ooms == StateAt(ArmOf(p, o, arm), b).ooms
  {
    LowerReplays(p, o, arm, b, log);
    assert AllSkipped(ArmOf(p, o, arm), log, b, i);
    HiddenRests(ArmOf(p, o, arm), b, log, SettingOf(p, o, arm, log), i, i);
  }

  lemma AbsentNotDone(log: seq<Rec>, k: Key)
    requires Absent(log, k)
    ensures k !in Done(log, KeyOf, Failed)
  {
    DoneHas(log, KeyOf, Failed, k);
  }

  /** There it launches the next context, which runs out of memory until the stop rule is met. */
  lemma {:induction false} Launches(c: Climber, g: Setting, i: nat, n: nat)
    requires ClimberOk(c) && i <= n < |c.ctxs| && c.ctxs[i] == c.ctxs[n] && Resumes(c, g) && KeyAt(c, i) !in g.done
    requires RunsOut(g.o(KeyAt(c, i))) && Before(g, c.ctxs, i).ooms + (n - i) <= g.stop
    ensures Before(g, c.ctxs, n).ooms == Before(g, c.ctxs, i).ooms + (n - i)
    decreases n
  {
    if i < n {
      assert c.ctxs[i] <= c.ctxs[n - 1] <= c.ctxs[n];
      Launches(c, g, i, n - 1);
    }
  }

  lemma LaunchRec(g: Setting, c: nat, s: Live)
    requires OracleOk(g.o) && Key(g.arm, c) !in g.done && RunsOut(g.o(Key(g.arm, c)))
    ensures Output(g, c, s)
         == [if s.ooms >= g.stop then SkipRec(Key(g.arm, c)) else Rec(Key(g.arm, c), Oom, None, true)]
  {}

  // ---- hiding one more ----

  lemma {:induction false} DoneStays(log: seq<Rec>, more: seq<Rec>, k: Key)
    requires k in Done(log, KeyOf, Failed)
    ensures k in Done(log + more, KeyOf, Failed)
  {
    if more == [] {
      assert log + more == log;
    } else {
      var p := more[..|more| - 1];
      DoneStays(log, p, k);
      assert log + more == (log + p) + [more[|more| - 1]];
      DoneSnoc(log + p, more[|more| - 1]);
    }
  }

  /** A doomed context can be hidden: the next session is killed at its first skip. */
  lemma HideNext(p: Plan, o: Oracle, arm: string, b: nat, kills: seq<nat>, log: seq<Rec>, i: nat)
    returns (more: seq<nat>, after: seq<Rec>, next: nat)
    requires Poised(p, o, arm, b) && log == Killed(p, o, kills) && Hidden(ArmOf(p, o, arm), b, log, i)
    requires i < |p.ctxs| && Dooms(ArmOf(p, o, arm), b, i)
    ensures after == Killed(p, o, more)
    ensures i < next <= |p.ctxs| && Hidden(ArmOf(p, o, arm), b, after, next)
    ensures NoFirst(p.ctxs, i, next)
  {
    var q, e := DoomedBlock(ArmOf(p, o, arm), b, i);
    more, after, next := HideBy(p, o, arm, b, kills, log, i, q, e);
  }

  lemma HideBy(p: Plan, o: Oracle, arm: string, b: nat, kills: seq<nat>, log: seq<Rec>, i: nat, q: nat, e: nat)
    returns (more: seq<nat>, after: seq<Rec>, next: nat)
    requires Poised(p, o, arm, b) && log == Killed(p, o, kills) && Hidden(ArmOf(p, o, arm), b, log, i)
    requires i < q <= e && Last(p.ctxs, e) && p.ctxs[i] == p.ctxs[q] == p.ctxs[e] && RunsOut(o(Key(arm, p.ctxs[i])))
    requires q - i == p.stop - StateAt(ArmOf(p, o, arm), b).ooms
    ensures after == Killed(p, o, more) && next == e + 1 && Hidden(ArmOf(p, o, arm), b, after, next)
  {
    var before;
    more, before, after := KilledNext(p, o, kills, log, arm, q + 1);
    next := HideWith(p, o, arm, b, log, more, before, i, q, e, after);
  }

  lemma HideWith(p: Plan, o: Oracle, arm: string, b: nat, log: seq<Rec>, more: seq<nat>, before: seq<Rec>, i: nat,
                 q: nat, e: nat, after: seq<Rec>)
    returns (next: nat)
    requires Poised(p, o, arm, b) && Hidden(ArmOf(p, o, arm), b, log, i) && i < q <= e && Last(p.ctxs, e)
    requires p.ctxs[i] == p.ctxs[q] == p.ctxs[e] && RunsOut(o(Key(arm, p.ctxs[i])))
    requires q - i == p.stop - StateAt(ArmOf(p, o, arm), b).ooms && forall r :: r in before ==> r.key.arm != arm
    requires after == Killed(p, o, more)
    requires after == log + (before + Appends(SettingOf(p, o, arm, log), p.ctxs, q + 1))
    ensures next == e + 1 && Hidden(ArmOf(p, o, arm), b, after, next)
  {
    next := e + 1;
    StopsAt(p, o, arm, b, log, i, q);
    StillHolds(p, o, arm, b, log, more, before + Appends(SettingOf(p, o, arm, log), p.ctxs, q + 1), after);
    HidesBlock(p, o, arm, b, log, before, i, q, e, after);
  }

  ghost predicate NoFirst(ctxs: seq<nat>, i: nat, next: nat)
    requires next <= |ctxs|
  {
    forall j :: i < j < next ==> !First(ctxs, j)
  }

  /** The listing of a doomed context that is skipped first, and the last one. */
  lemma DoomedBlock(c: Climber, b: nat, i: nat) returns (q: nat, e: nat)
    requires Sorted(c.ctxs) && b <= i < |c.ctxs| && Dooms(c, b, i)
    ensures i < q <= e && Last(c.ctxs, e) && c.ctxs[i] == c.ctxs[q] == c.ctxs[e] && NoFirst(c.ctxs, i, e + 1)
    ensures RunsOut(c.g.o(KeyAt(c, i))) && q - i == c.g.stop - StateAt(c, b).ooms
  {
    e := LastOf(c.ctxs, i);
    q := i + (c.g.stop - StateAt(c, b).ooms);
    LastAfter(c.ctxs, e, q);
    OneBlock(c.ctxs, i, e);
  }

  lemma OneBlock(ctxs: seq<nat>, i: nat, e: nat)
    requires Sorted(ctxs) && i <= e < |ctxs| && ctxs[i] == ctxs[e]
    ensures NoFirst(ctxs, i, e + 1)
  {
    forall j: nat | i < j <= e ensures !First(ctxs, j) {
      InBlock(ctxs, i, e, j);
      InBlock(ctxs, i, e, j - 1);
    }
  }

  lemma HidesBlock(p: Plan, o: Oracle, arm: string, b: nat, log: seq<Rec>, before: seq<Rec>, i: nat, q: nat, e: nat,
                   after: seq<Rec>)
    requires Sorted(p.ctxs) && Hidden(ArmOf(p, o, arm), b, log, i) && i <= q <= e && Last(p.ctxs, e)
    requires p.ctxs[i] == p.ctxs[e] && forall r :: r in before ==> r.key.arm != arm
    requires var g := SettingOf(p, o, arm, log);
             && Output(g, p.ctxs[q], Before(g, p.ctxs, q)) == [SkipRec(Key(arm, p.ctxs[q]))]
             && after == log + (before + Appends(g, p.ctxs, q + 1))
    requires Holds(Lower(ArmOf(p, o, arm), b), after, b)
    ensures Hidden(ArmOf(p, o, arm), b, after, e + 1)
  {
    SkipsBlock(p, o, arm, b, log, before, i, q, e, after);
    LeavesAbove(ArmOf(p, o, arm), log, before, SettingOf(p, o, arm, log), i, q, e, after);
  }

  lemma SkipsBlock(p: Plan, o: Oracle, arm: string, b: nat, log: seq<Rec>, before: seq<Rec>, i: nat, q: nat, e: nat,
                   after: seq<Rec>)
    requires Sorted(p.ctxs) && i <= q <= e < |p.ctxs| && AllSkipped(ArmOf(p, o, arm), log, b, i)
    requires p.ctxs[i] == p.ctxs[e] && forall r :: r in before ==> r.key.arm != arm
    requires var g := SettingOf(p, o, arm, log);
             && Output(g, p.ctxs[q], Before(g, p.ctxs, q)) == [SkipRec(Key(arm, p.ctxs[q]))]
             && after == log + (before + Appends(g, p.ctxs, q + 1))
    ensures AllSkipped(ArmOf(p, o, arm), after, b, e + 1)
  {
    StaySkipped(p, o, arm, b, log, before, i, q + 1, after);
    LastSkipped(log, before, SettingOf(p, o, arm, log), p.ctxs, i, q, e, after);
    BlockSkipped(ArmOf(p, o, arm), after, b, i, e);
  }

  lemma LastSkipped(log: seq<Rec>, before: seq<Rec>, g: Setting, ctxs: seq<nat>, i: nat, q: nat, e: nat,
                    after: seq<Rec>)
    requires Sorted(ctxs) && i <= q <= e < |ctxs| && ctxs[i] == ctxs[e]
    requires Output(g, ctxs[q], Before(g, ctxs, q)) == [SkipRec(Key(g.arm, ctxs[q]))]
    requires after == log + (before + Appends(g, ctxs, q + 1))
    ensures SkippedIn(after, Key(g.arm, ctxs[e]))
  {
    NowSkipped(log, before, g, ctxs, q, after);
    InBlock(ctxs, i, e, q);
  }

  lemma StaySkipped(p: Plan, o: Oracle, arm: string, b: nat, log: seq<Rec>, before: seq<Rec>, i: nat, q: nat,
                    after: seq<Rec>)
    requires i <= |p.ctxs| && AllSkipped(ArmOf(p, o, arm), log, b, i) && q <= |p.ctxs|
    requires after == log + (before + Appends(SettingOf(p, o, arm, log), p.ctxs, q))
    requires forall r :: r in before ==> r.key.arm != arm
    ensures AllSkipped(ArmOf(p, o, arm), after, b, i)
  {
    var c := ArmOf(p, o, arm);
    forall j: nat | b <= j < i ensures SkippedIn(after, KeyAt(c, j)) {
      assert SkippedIn(log, KeyAt(c, j));
      StaysSkipped(p, o, arm, log, before, q, KeyAt(c, j), after);
    }
  }

  lemma BlockSkipped(c: Climber, log: seq<Rec>, b: nat, i: nat, e: nat)
    requires Sorted(c.ctxs) && i <= e < |c.ctxs| && c.ctxs[i] == c.ctxs[e] && AllSkipped(c, log, b, i)
    requires SkippedIn(log, KeyAt(c, e))
    ensures AllSkipped(c, log, b, e + 1)
  {
    forall j: nat | b <= j < e + 1 ensures SkippedIn(log, KeyAt(c, j)) {
      if j >= i {
        InBlock(c.ctxs, i, e, j);
      }
    }
  }

  lemma LeavesAbove(c: Climber, log: seq<Rec>, before: seq<Rec>, g: Setting, i: nat, q: nat, e: nat, after: seq<Rec>)
    requires Sorted(c.ctxs) && i <= q <= e && Last(c.ctxs, e) && NoneFrom(c, log, i) && g.arm == c.g.arm
    requires forall r :: r in before ==> r.key.arm != c.g.arm
    requires after == log + (before + Appends(g, c.ctxs, q + 1))
    ensures NoneFrom(c, after, e + 1)
  {
    NoneInPart(c, g, q + 1, e);
    NoneOfOthers(c, before, e + 1);
    NoneInBoth(c, before, Appends(g, c.ctxs, q + 1), e + 1);
    NoneAbove(c, log, i, e + 1);
    NoneInBoth(c, log, before + Appends(g, c.ctxs, q + 1), e + 1);
  }

  lemma NoneAbove(c: Climber, s: seq<Rec>, i: nat, j: nat)
    requires NoneFrom(c, s, i) && i <= j
    ensures NoneFrom(c, s, j)
  {}

  lemma NoneOfOthers(c: Climber, s: seq<Rec>, i: nat)
    requires forall r :: r in s ==> r.key.arm != c.g.arm
    ensures NoneFrom(c, s, i)
  {}

  lemma NoneInBoth(c: Climber, a: seq<Rec>, b: seq<Rec>, i: nat)
    requires NoneFrom(c, a, i) && NoneFrom(c, b, i)
    ensures NoneFrom(c, a + b, i)
  {
    forall j: nat | i <= j < |c.ctxs| ensures Absent(a + b, KeyAt(c, j)) {
      assert Absent(a, KeyAt(c, j)) && Absent(b, KeyAt(c, j));
    }
  }

  lemma NoneInPart(c: Climber, g: Setting, q: nat, e: nat)
    requires Sorted(c.ctxs) && q <= e + 1 && Last(c.ctxs, e) && g.arm == c.g.arm
    ensures NoneFrom(c, Appends(g, c.ctxs, q), e + 1)
  {
    SamePart(g, c.ctxs, q, q);
    AppendsFresh(g, c.ctxs[..q], q);
    forall j: nat | e + 1 <= j < |c.ctxs| ensures Absent(Appends(g, c.ctxs, q), KeyAt(c, j)) {
      AboveAll(c.ctxs, q, e, j);
    }
  }

  lemma AboveAll(ctxs: seq<nat>, q: nat, e: nat, j: nat)
    requires Sorted(ctxs) && q <= e + 1 <= j < |ctxs| && Last(ctxs, e)
    ensures ctxs[j] !in ctxs[..q]
  {
    PastLast(ctxs, e, j);
    assert forall x :: x in ctxs[..q] ==> x <= ctxs[e];
  }

  lemma InBlock(ctxs: seq<nat>, i: nat, e: nat, j: nat)
    requires Sorted(ctxs) && i <= j <= e < |ctxs| && ctxs[i] == ctxs[e]
    ensures ctxs[j] == ctxs[i]
  {
    assert ctxs[i] <= ctxs[j] <= ctxs[e];
  }

  lemma StopsAt(p: Plan, o: Oracle, arm: string, b: nat, log: seq<Rec>, i: nat, q: nat)
    requires Poised(p, o, arm, b) && Hidden(ArmOf(p, o, arm), b, log, i) && i <= q < |p.ctxs|
    requires RunsOut(o(Key(arm, p.ctxs[i]))) && p.ctxs[q] == p.ctxs[i]
    requires q - i == p.stop - StateAt(ArmOf(p, o, arm), b).ooms
    ensures var g := SettingOf(p, o, arm, log);
            Output(g, p.ctxs[q], Before(g, p.ctxs, q)) == [SkipRec(Key(arm, p.ctxs[q]))]
  {
    var c, g := ArmOf(p, o, arm), SettingOf(p, o, arm, log);
    Arrives(p, o, arm, b, log, i);
    AbsentNotDone(log, KeyAt(c, i));
    Launches(c, g, i, q);
    LaunchRec(g, p.ctxs[q], Before(g, p.ctxs, q));
  }

  lemma NowSkipped(log: seq<Rec>, before: seq<Rec>, g: Setting, ctxs: seq<nat>, q: nat, after: seq<Rec>)
    requires q < |ctxs| && Output(g, ctxs[q], Before(g, ctxs, q)) == [SkipRec(Key(g.arm, ctxs[q]))]
    requires after == log + (before + Appends(g, ctxs, q + 1))
    ensures SkippedIn(after, Key(g.arm, ctxs[q]))
  {
    var r, a := SkipRec(Key(g.arm, ctxs[q])), Appends(g, ctxs, q);
    assert after == (log + (before + a)) + [r];
    EndsWith(log + (before + a), r);
  }

  lemma StaysSkipped(p: Plan, o: Oracle, arm: string, log: seq<Rec>, before: seq<Rec>, q: nat, k: Key, after: seq<Rec>)
    requires q <= |p.ctxs| && SkippedIn(log, k) && k.arm == arm && forall r :: r in before ==> r.key.arm != arm
    requires after == log + (before + Appends(SettingOf(p, o, arm, log), p.ctxs, q))
    ensures SkippedIn(after, k)
  {
    var more := before + Appends(SettingOf(p, o, arm, log), p.ctxs, q);
    AppendsFresh(SettingOf(p, o, arm, log), p.ctxs, q);
    DoneStays(log, more, k);
    LatestUntouched(log, more, k);
  }

  lemma StillHolds(p: Plan, o: Oracle, arm: string, b: nat, log: seq<Rec>, more: seq<nat>, s: seq<Rec>, after: seq<Rec>)
    requires Poised(p, o, arm, b) && Holds(Lower(ArmOf(p, o, arm), b), log, b)
    requires after == Killed(p, o, more) == log + s
    ensures Holds(Lower(ArmOf(p, o, arm), b), after, b)
  {
    var c := Lower(ArmOf(p, o, arm), b);
    LowerIsPart(p, o, arm, b);
    var m := KilledHolds(p, c, more);
    if m < b {
      assert CleanRec(c, b - 1) in log;
      SameBlock(c, after, m);
    }
  }

  lemma SameBlock(c: Climber, log: seq<Rec>, m: nat)
    requires ClimberOk(c) && |c.ctxs| > 0 && Holds(c, log, m) && CleanRec(c, |c.ctxs| - 1) in log
    ensures m == |c.ctxs|
  {
    var l: nat := |c.ctxs| - 1;
    var r := CleanRec(c, l);
    assert Of(c, r);
    assert Among(c, r, m);
    var i: nat :| i < m && r == CleanRec(c, i);
    if m <= l { Apart(c.ctxs, i, m, l); }
  }

  // ---- a context that is not doomed shows ----

  /** Behind hidden contexts, one that is not doomed does not end as skipped. */
  lemma Shows(p: Plan, o: Oracle, arm: string, b: nat, kills: seq<nat>, log: seq<Rec>, i: nat)
    requires Poised(p, o, arm, b) && log == Killed(p, o, kills) && Hidden(ArmOf(p, o, arm), b, log, i) && i < |p.ctxs|
    requires !Dooms(ArmOf(p, o, arm), b, i) && ShowsSkip(Latest(Session(p, o, []), KeyOf), Key(arm, p.ctxs[i]))
    ensures !RestartTransparent(p, o)
  {
    var c, raw := ArmOf(p, o, arm), o(Key(arm, p.ctxs[i]));
    assert RawOk(raw);
    Arrives(p, o, arm, b, log, i);
    AbsentNotDone(log, KeyAt(c, i));
    if !raw.error {
      ShowsLaunch(p, o, arm, kills, i);
    } else if raw.status != Oom {
      LatestFollowsRung(p, o, log, arm, i);
      var k := Key(arm, p.ctxs[i]);
      assert Latest(log + Session(p, o, log), KeyOf)[k] != Latest(Session(p, o, []), KeyOf)[k];
    } else {
      ShowsLast(p, o, arm, b, kills, log, i);
    }
  }

  /** It does not fail: killed right after its launch, it counts as done. */
  lemma ShowsLaunch(p: Plan, o: Oracle, arm: string, kills: seq<nat>, i: nat)
    requires arm in p.arms && i < |p.ctxs| && OracleOk(o) && !o(Key(arm, p.ctxs[i])).error
    requires Key(arm, p.ctxs[i]) !in Done(Killed(p, o, kills), KeyOf, Failed)
    requires Before(SettingOf(p, o, arm, Killed(p, o, kills)), p.ctxs, i).ooms < p.stop
    requires ShowsSkip(Latest(Session(p, o, []), KeyOf), Key(arm, p.ctxs[i]))
    ensures !RestartTransparent(p, o)
  {
    var log, k := Killed(p, o, kills), Key(arm, p.ctxs[i]);
    var g := SettingOf(p, o, arm, log);
    var more, before, after := KilledNext(p, o, kills, log, arm, i + 1);
    var a, r := Appends(g, p.ctxs, i), RecordOf(k, o(k), Before(g, p.ctxs, i).last);
    assert RawOk(o(k));
    assert log + (before + (a + [r])) == (log + (before + a)) + [r];
    EndsWith(log + (before + a), r);
    DoneStands(p, o, more, k);
  }

  /** It runs out of memory but is listed too few times: its last listing is launched too. */
  lemma ShowsLast(p: Plan, o: Oracle, arm: string, b: nat, kills: seq<nat>, log: seq<Rec>, i: nat)
    requires Poised(p, o, arm, b) && log == Killed(p, o, kills) && Hidden(ArmOf(p, o, arm), b, log, i) && i < |p.ctxs|
    requires RunsOut(o(Key(arm, p.ctxs[i]))) && !Dooms(ArmOf(p, o, arm), b, i)
    requires ShowsSkip(Latest(Session(p, o, []), KeyOf), Key(arm, p.ctxs[i]))
    ensures !RestartTransparent(p, o)
  {
    var c, e := ArmOf(p, o, arm), LastOf(p.ctxs, i);
    var g, k := SettingOf(p, o, arm, log), Key(arm, p.ctxs[i]);
    Arrives(p, o, arm, b, log, i);
    AbsentNotDone(log, k);
    TooFew(c, b, i, e);
    Launches(c, g, i, e);
    LaunchRec(g, p.ctxs[e], Before(g, p.ctxs, e));
    LatestAfterArms(p, o, p.arms, g, log, e);
    assert Latest(log + Session(p, o, log), KeyOf)[k].status == Oom;
    assert Latest(log + Session(p, o, log), KeyOf)[k] != Latest(Session(p, o, []), KeyOf)[k];
  }

  lemma TooFew(c: Climber, b: nat, i: nat, e: nat)
    requires Sorted(c.ctxs) && b <= i <= e < |c.ctxs| && c.ctxs[i] == c.ctxs[e] && StateAt(c, b).ooms < c.g.stop
    requires RunsOut(c.g.o(KeyAt(c, i))) && !Dooms(c, b, i)
    ensures StateAt(c, b).ooms + (e - i) < c.g.stop
  {
    var q: nat := i + (c.g.stop - StateAt(c, b).ooms);
    if q <= e { InBlock(c.ctxs, i, e, q); }
  }

  // ---- the chain ----

  /** The contexts from rung `b` up to rung `i` are doomed. */
  ghost predicate DoomedTo(c: Climber, b: nat, i: nat)
    requires b <= i <= |c.ctxs|
  {
    forall j :: b <= j < i && First(c.ctxs, j) ==> Dooms(c, b, j)
  }

  lemma DoomedNext(c: Climber, b: nat, i: nat, next: nat)
    requires b <= i < next <= |c.ctxs| && DoomedTo(c, b, i) && Dooms(c, b, i) && NoFirst(c.ctxs, i, next)
    ensures DoomedTo(c, b, next)
  {}

  /** Hiding doomed contexts one after the other, some session reaches one that is not. */
  lemma {:induction false} ChainBreaks(p: Plan, o: Oracle, arm: string, b: nat, kills: seq<nat>, log: seq<Rec>, i: nat)
    requires Poised(p, o, arm, b) && log == Killed(p, o, kills) && Hidden(ArmOf(p, o, arm), b, log, i)
    requires EndsSkipped(p, o, arm, b) && !Doomed(ArmOf(p, o, arm), b) && DoomedTo(ArmOf(p, o, arm), b, i)
    ensures !RestartTransparent(p, o)
    decreases |p.ctxs| - i
  {
    var c := ArmOf(p, o, arm);
    if i < |p.ctxs| {
      if Dooms(c, b, i) {
        var more, after, next := HideNext(p, o, arm, b, kills, log, i);
        DoomedNext(c, b, i, next);
        ChainBreaks(p, o, arm, b, more, after, next);
      } else {
        assert ShowsSkip(Latest(Session(p, o, []), KeyOf), Key(arm, p.ctxs[i]));
        Shows(p, o, arm, b, kills, log, i);
      }
    }
  }

  /** It starts with a session killed at rung `b`. */
  lemma ChainStarts(p: Plan, o: Oracle, arm: string, b: nat)
    requires Poised(p, o, arm, b) && EndsSkipped(p, o, arm, b) && !Doomed(ArmOf(p, o, arm), b)
    ensures !RestartTransparent(p, o)
  {
    var c := ArmOf(p, o, arm);
    var kill, before := KilledAt(p, o, arm, b);
    LowerHolds(p, o, arm, b, before);
    NoneReached(c, before, b);
    ChainBreaks(p, o, arm, b, [kill], Killed(p, o, [kill]), b);
  }

  lemma NoneReached(c: Climber, before: seq<Rec>, b: nat)
    requires Sorted(c.ctxs) && b < |c.ctxs| && First(c.ctxs, b) && forall r :: r in before ==> r.key.arm != c.g.arm
    ensures NoneFrom(c, before + Appends(c.g, c.ctxs, b), b)
  {
    SamePart(c.g, c.ctxs, b, b);
    AppendsFresh(c.g, c.ctxs[..b], b);
    forall j: nat | b <= j < |c.ctxs| ensures Absent(before + Appends(c.g, c.ctxs, b), KeyAt(c, j)) {
      NotBelow(c.ctxs, b, j);
    }
  }

  // ---- exactly when ----

  /** Below a context left half launched all contexts are settled. */
  lemma SettledBelow(c: Climber, b: nat, n: nat)
    requires ClimberOk(c) && b <= n < |c.ctxs| && !Settled(c, n)
    ensures AllSettled(Lower(c, b)) && StateAt(c, b).ooms < c.g.stop
  {
    var l := Lower(c, b);
    SkippedIff(c, n);
    SkippedIff(c, b);
    if CleanRec(c, b).status == Skipped { SkippedForGood(c, b, n); }
    forall i: nat | i < b ensures Settled(l, i) { SettledAt(c, b, n, i); }
  }

  lemma SettledAt(c: Climber, b: nat, n: nat, i: nat)
    requires ClimberOk(c) && i < b <= n < |c.ctxs| && CleanRec(c, n).status != Skipped
    ensures Settled(Lower(c, b), i)
  {
    if i + 1 < b {
      SamePart(c.g, c.ctxs, b, i + 1);
      if CleanRec(c, i + 1).status == Skipped { SkippedForGood(c, i + 1, n); }
    }
  }

  lemma LowerVerdicts(c: Climber, b: nat, n: nat)
    requires n < b <= |c.ctxs| && c.g.done == {}
    ensures VerdictStands(Lower(c, b), n) <==> VerdictStands(c, n)
  {
    SamePart(c.g, c.ctxs, b, n);
    LowerReplayed(c, b, n);
  }

  lemma LowerSettled(c: Climber, b: nat)
    requires b <= |c.ctxs| && c.g.done == {} && AllSettled(c)
    ensures AllSettled(Lower(c, b))
  {
    forall i | 0 <= i < b ensures Settled(Lower(c, b), i) {
      assert Settled(c, i);
      SamePart(c.g, c.ctxs, b, i);
      if i + 1 < b { SamePart(c.g, c.ctxs, b, i + 1); }
    }
  }

  /** Below a context left half launched, a verdict that does not stand shows. */
  lemma VerdictBelow(p: Plan, o: Oracle, arm: string, b: nat)
    requires arm in p.arms && b <= |p.ctxs| && ClimberOk(ArmOf(p, o, arm)) && AllSettled(Lower(ArmOf(p, o, arm), b))
    requires !VerdictsStand(Lower(ArmOf(p, o, arm), b))
    ensures !RestartTransparent(p, o)
  {
    var c := ArmOf(p, o, arm);
    var n: nat :| n < b && !VerdictStands(Lower(c, b), n);
    LowerVerdicts(c, b, n);
    LowerSettled(Lower(c, b), n);
    assert p.ctxs[..b][..n] == p.ctxs[..n];
    VerdictFlips(p, o, arm, n);
  }

  lemma SkippedAbove(p: Plan, o: Oracle, arm: string, b: nat, n: nat)
    requires arm in p.arms && n < |p.ctxs| && ClimberOk(ArmOf(p, o, arm)) && !Settled(ArmOf(p, o, arm), n)
    requires b <= n && First(p.ctxs, b) && p.ctxs[b] == p.ctxs[n]
    ensures EndsSkipped(p, o, arm, b)
  {
    var c := ArmOf(p, o, arm);
    forall j | b <= j < |p.ctxs| ensures ShowsSkip(Latest(Session(p, o, []), KeyOf), Key(arm, p.ctxs[j])) {
      if j <= n {
        InBlock(p.ctxs, b, n, j);
        CleanLatest(p, o, arm, n + 1);
      } else {
        SkippedForGood(c, n + 1, j);
        CleanLatest(p, o, arm, j);
      }
    }
  }

  /** An arm that is not resumable shows after some kills. */
  lemma NotResumable(p: Plan, o: Oracle, arm: string)
    requires OracleOk(o) && Sorted(p.ctxs) && arm in p.arms && forall b: nat :: !Resumable(p, o, arm, b)
    ensures !RestartTransparent(p, o)
  {
    var c := ArmOf(p, o, arm);
    assert Lower(c, |p.ctxs|) == c by { assert p.ctxs[..|p.ctxs|] == p.ctxs; }
    if AllSettled(c) {
      assert !Resumable(p, o, arm, |p.ctxs|);
      VerdictBelow(p, o, arm, |p.ctxs|);
    } else {
      var n: nat :| n < |p.ctxs| && !Settled(c, n);
      HalfLaunched(p, o, arm, n);
    }
  }

  lemma HalfLaunched(p: Plan, o: Oracle, arm: string, n: nat)
    requires OracleOk(o) && Sorted(p.ctxs) && arm in p.arms && forall b: nat :: !Resumable(p, o, arm, b)
    requires n < |p.ctxs| && !Settled(ArmOf(p, o, arm), n)
    ensures !RestartTransparent(p, o)
  {
    var c := ArmOf(p, o, arm);
    var b := BlockStart(p.ctxs, n);
    SettledBelow(c, b, n);
    if !VerdictsStand(Lower(c, b)) {
      VerdictBelow(p, o, arm, b);
    } else if !Once(p.arms, arm) {
      TwiceLaunched(p, o, arm, n);
    } else {
      assert !Resumable(p, o, arm, b);
      SkippedAbove(p, o, arm, b, n);
      ChainStarts(p, o, arm, b);
    }
  }

  /** Restarts are transparent exactly when every arm is resumable: up to some context each verdict is the same against
      the recorded as against the exact rate and no context is launched at one of its listings and skipped at the next;
      and from there on, if anything is left, the arm is listed once and every context is doomed. */
  lemma TransparentIff(p: Plan, o: Oracle)
    requires OracleOk(o) && Sorted(p.ctxs)
    ensures RestartTransparent(p, o) <==> AllResumable(p, o)
  {
    if AllResumable(p, o) {
      forall kills: seq<nat>
        ensures var log := Killed(p, o, kills);
                Latest(log + Session(p, o, log), KeyOf) == Latest(Session(p, o, []), KeyOf)
      {
        Transparent(p, o, kills);
      }
    } else {
      var arm :| arm in p.arms && !exists b: nat :: Resumable(p, o, arm, b);
      NotResumable(p, o, arm);
    }
  }

  lemma StandsResumable(p: Plan, o: Oracle, arm: string)
    requires Stands(ArmOf(p, o, arm))
    ensures Resumable(p, o, arm, |p.ctxs|)
  {
    assert p.ctxs[..|p.ctxs|] == p.ctxs;
  }

  /** With distinct contexts only the verdicts matter. */
  lemma DistinctIff(p: Plan, o: Oracle)
    requires OracleOk(o) && Sorted(p.ctxs) && Distinct(p.ctxs)
    ensures RestartTransparent(p, o) <==> forall arm :: arm in p.arms ==> VerdictsStand(ArmOf(p, o, arm))
  {
    TransparentIff(p, o);
    forall arm | arm in p.arms
      ensures (exists b: nat :: Resumable(p, o, arm, b)) <==> VerdictsStand(ArmOf(p, o, arm))
    {
      DistinctSettled(ArmOf(p, o, arm));
      if VerdictsStand(ArmOf(p, o, arm)) { StandsResumable(p, o, arm); }
      if b: nat :| Resumable(p, o, arm, b) { NoneDoomed(p, o, arm, b); }
    }
  }

  lemma NoneDoomed(p: Plan, o: Oracle, arm: string, b: nat)
    requires Distinct(p.ctxs) && Resumable(p, o, arm, b)
    ensures VerdictsStand(ArmOf(p, o, arm))
  {
    var c := ArmOf(p, o, arm);
    if b < |p.ctxs| { DistinctNotDoomed(c, b); }
    assert p.ctxs[..|p.ctxs|] == p.ctxs;
  }

  lemma DistinctNotDoomed(c: Climber, b: nat)
    requires Distinct(c.ctxs) && b < |c.ctxs|
    ensures !Dooms(c, b, b)
  {}
}
