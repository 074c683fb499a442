/** Restart transparency of the ladder. Up to some context the climb must resume as it ran; the contexts above must all
    be doomed: each runs out of memory, with an error, at enough of its listings to be skipped whatever is resumed. */
module LadderDoomed {
  import opened Seqs
  import opened Options
  import opened KeyedLog
  import opened Ladder
  import opened LadderRungs
  import opened LadderProofs

  predicate RunsOut(r: Raw) {
    r.status == Oom && r.error
  }

  /** The context listed first at rung `j` runs out of memory, and is listed often enough to be skipped when the climb
      arrives with the ceilings it has counted at rung `b`. */
  predicate Dooms(c: Climber, b: nat, j: nat)
    requires b <= |c.ctxs| && j < |c.ctxs|
  {
    var e := j + (c.g.stop - StateAt(c, b).ooms);
    RunsOut(c.g.o(KeyAt(c, j))) && j < e < |c.ctxs| && c.ctxs[e] == c.ctxs[j]
  }

  ghost predicate Doomed(c: Climber, b: nat)
    requires b <= |c.ctxs|
  {
    forall j :: b <= j < |c.ctxs| && First(c.ctxs, j) ==> Dooms(c, b, j)
  }

  /** The first `b` rungs. */
  function Lower(c: Climber, b: nat): Climber
    requires b <= |c.ctxs|
  {
    Climber(c.ctxs[..b], c.g)
  }

  ghost predicate Once<T>(s: seq<T>, x: T) {
    forall i, j :: 0 <= i < j < |s| && s[i] == x ==> s[j] != x
  }

  /** Below rung `b` verdicts stand and contexts settle; the contexts from there on, if any, are doomed, and the arm is
      listed once. */
  ghost predicate Resumable(p: Plan, o: Oracle, arm: string, b: nat) {
    var c := ArmOf(p, o, arm);
    && b <= |p.ctxs| && (b < |p.ctxs| ==> First(p.ctxs, b) && Once(p.arms, arm))
    && Stands(Lower(c, b)) && Doomed(c, b)
  }

  lemma LowerIsPart(p: Plan, o: Oracle, arm: string, b: nat)
    requires b <= |p.ctxs| && (b < |p.ctxs| ==> First(p.ctxs, b))
    ensures IsPart(p, Lower(ArmOf(p, o, arm), b))
  {}

  // ---- rungs above ----

  function SkipRec(k: Key): Rec {
    Rec(k, Skipped, None, false)
  }

  /** A climb of the same arm over some store. */
  ghost predicate Resumes(c: Climber, g: Setting) {
    g.arm == c.g.arm && g.stop == c.g.stop && g.o == c.g.o
  }

  ghost predicate SkipIfDone(k: Key, done: set<Key>, latest: map<Key, Rec>) {
    k in done ==> k in latest && latest[k] == SkipRec(k)
  }

  /** Of the doomed points the store counts only skipped ones as done. */
  ghost predicate UpperOk(c: Climber, b: nat, done: set<Key>, latest: map<Key, Rec>) {
    forall j :: b <= j < |c.ctxs| ==> SkipIfDone(KeyAt(c, j), done, latest)
  }

  lemma {:induction false} BlockStart(ctxs: seq<nat>, i: nat) returns (a: nat)
    requires i < |ctxs|
    ensures a <= i && First(ctxs, a) && ctxs[a] == ctxs[i]
  {
    if First(ctxs, i) { a := i; } else { a := BlockStart(ctxs, i - 1); }
  }

  /** Every listing of a doomed context runs out of memory. */
  lemma DoomedAt(c: Climber, b: nat, n: nat) returns (a: nat)
    requires Sorted(c.ctxs) && b <= n < |c.ctxs| && First(c.ctxs, b) && Doomed(c, b)
    ensures b <= a <= n && First(c.ctxs, a) && c.ctxs[a] == c.ctxs[n] && Dooms(c, b, a)
    ensures RunsOut(c.g.o(KeyAt(c, n)))
  {
    a := BlockStart(c.ctxs, n);
    if a < b { Apart(c.ctxs, a, b, n); }
    assert Dooms(c, b, a);
  }

  /** One doomed rung of a resumed climb. */
  lemma UpperNext(c: Climber, b: nat, g: Setting, s: Live, n: nat)
    requires Sorted(c.ctxs) && b <= n < |c.ctxs| && First(c.ctxs, b) && Doomed(c, b) && Resumes(c, g)
    requires SkipIfDone(KeyAt(c, n), g.done, g.latest)
    ensures var k, rests := KeyAt(c, n), KeyAt(c, n) in g.done || s.ooms >= g.stop;
            && Next(g, c.ctxs[n], s).ooms == (if rests then s.ooms else s.ooms + 1)
            && Output(g, c.ctxs[n], s)
               == if k in g.done then [] else if rests then [SkipRec(k)] else [Rec(k, Oom, None, true)]
  {
    var a := DoomedAt(c, b, n);
  }

  /** The count never falls among doomed rungs. */
  lemma {:induction false} UpperCount(c: Climber, b: nat, g: Setting, i: nat, n: nat)
    requires Sorted(c.ctxs) && b <= i <= n <= |c.ctxs| && b < |c.ctxs| && First(c.ctxs, b) && Doomed(c, b)
    requires Resumes(c, g) && UpperOk(c, b, g.done, g.latest)
    ensures Before(g, c.ctxs, n).ooms >= Before(g, c.ctxs, i).ooms
    decreases n
  {
    if i < n {
      UpperCount(c, b, g, i, n - 1);
      UpperNext(c, b, g, Before(g, c.ctxs, n - 1), n - 1);
    }
  }

  /** Within one context that is not done it rises until the stop rule is met. */
  lemma {:induction false} BlockCount(c: Climber, b: nat, g: Setting, i: nat, n: nat)
    requires Sorted(c.ctxs) && b <= i <= n < |c.ctxs| && First(c.ctxs, b) && Doomed(c, b)
    requires Resumes(c, g) && UpperOk(c, b, g.done, g.latest) && c.ctxs[i] == c.ctxs[n] && KeyAt(c, i) !in g.done
    ensures Before(g, c.ctxs, n).ooms >= g.stop || Before(g, c.ctxs, n).ooms == Before(g, c.ctxs, i).ooms + (n - i)
    decreases n
  {
    if i < n {
      assert c.ctxs[i] <= c.ctxs[n - 1] <= c.ctxs[n];
      BlockCount(c, b, g, i, n - 1);
      UpperNext(c, b, g, Before(g, c.ctxs, n - 1), n - 1);
    }
  }

  lemma LastAfter(ctxs: seq<nat>, e: nat, m: nat)
    requires Sorted(ctxs) && Last(ctxs, e) && m < |ctxs| && ctxs[m] == ctxs[e]
    ensures m <= e
  {
    if e < m { PastLast(ctxs, e, m); }
  }

  /** So a doomed context that is not done meets the stop rule before its last listing. */
  lemma BlockReaches(c: Climber, b: nat, g: Setting, a: nat, e: nat)
    requires Sorted(c.ctxs) && b <= a <= e && Last(c.ctxs, e) && First(c.ctxs, b) && Doomed(c, b)
    requires Resumes(c, g) && UpperOk(c, b, g.done, g.latest) && KeyAt(c, e) !in g.done
    requires c.ctxs[a] == c.ctxs[e] && Dooms(c, b, a) && Before(g, c.ctxs, b).ooms >= StateAt(c, b).ooms
    ensures Before(g, c.ctxs, e).ooms >= g.stop
  {
    var m: nat := a + (c.g.stop - StateAt(c, b).ooms);
    LastAfter(c.ctxs, e, m);
    UpperCount(c, b, g, b, a);
    BlockCount(c, b, g, a, m);
    UpperCount(c, b, g, m, e);
  }

  /** Its last listing is skipped. */
  lemma BlockSkips(c: Climber, b: nat, g: Setting, e: nat)
    requires Sorted(c.ctxs) && b <= e && Last(c.ctxs, e) && First(c.ctxs, b) && Doomed(c, b)
    requires Resumes(c, g) && UpperOk(c, b, g.done, g.latest) && KeyAt(c, e) !in g.done
    requires Before(g, c.ctxs, b).ooms >= StateAt(c, b).ooms
    ensures Output(g, c.ctxs[e], Before(g, c.ctxs, e)) == [SkipRec(KeyAt(c, e))]
  {
    var a := DoomedAt(c, b, e);
    BlockReaches(c, b, g, a, e);
    UpperNext(c, b, g, Before(g, c.ctxs, e), e);
  }

  // ---- a session stopped anywhere ----

  lemma DoneSnoc(log: seq<Rec>, r: Rec)
    ensures Done(log + [r], KeyOf, Failed) == Done(log, KeyOf, Failed) + if r.error then {} else {r.key}
  {
    assert (log + [r])[..|log|] == log;
  }

  lemma {:induction false} DoneUntouched(log: seq<Rec>, more: seq<Rec>, k: Key)
    requires forall r :: r in more ==> r.key != k
    ensures k in Done(log + more, KeyOf, Failed) <==> k in Done(log, KeyOf, Failed)
  {
    if more == [] {
      assert log + more == log;
    } else {
      var p := more[..|more| - 1];
      DoneUntouched(log, p, k);
      assert log + more == (log + p) + [more[|more| - 1]];
      DoneSnoc(log + p, more[|more| - 1]);
    }
  }

  lemma Untouched(log: seq<Rec>, more: seq<Rec>, k: Key)
    requires forall r :: r in more ==> r.key != k
    ensures SkipIfDone(k, Done(log + more, KeyOf, Failed), Latest(log + more, KeyOf))
       <==> SkipIfDone(k, Done(log, KeyOf, Failed), Latest(log, KeyOf))
  {
    DoneUntouched(log, more, k);
    LatestUntouched(log, more, k);
  }

  /** While a climb runs, a doomed point it had to run counts as done only once it is skipped, and then the climb has
      met the stop rule. */
  ghost predicate UpperAt(c: Climber, b: nat, g: Setting, log: seq<Rec>, n: nat, k: Key)
    requires n <= |c.ctxs|
  {
    && SkipIfDone(k, Done(log, KeyOf, Failed), Latest(log, KeyOf))
    && (k in Done(log, KeyOf, Failed) ==> n > b && Before(g, c.ctxs, n).ooms >= g.stop)
  }

  lemma {:induction false} UpperKept(c: Climber, b: nat, g: Setting, store: seq<Rec>, n: nat, j: nat)
    returns (log: seq<Rec>)
    requires Sorted(c.ctxs) && b <= j < |c.ctxs| && n <= |c.ctxs| && First(c.ctxs, b) && Doomed(c, b)
    requires Resumes(c, g) && UpperOk(c, b, g.done, g.latest) && KeyAt(c, j) !in g.done
    requires KeyAt(c, j) !in Done(store, KeyOf, Failed)
    ensures log == store + Appends(g, c.ctxs, n) && UpperAt(c, b, g, log, n, KeyAt(c, j))
  {
    if n == 0 {
      log := UpperBase(c, b, g, store, KeyAt(c, j));
    } else {
      var before := UpperKept(c, b, g, store, n - 1, j);
      log := UpperStep(c, b, g, before, n, j);
      AppendsNext(store, g, c.ctxs, n);
    }
  }

  lemma UpperBase(c: Climber, b: nat, g: Setting, store: seq<Rec>, k: Key) returns (log: seq<Rec>)
    requires k !in Done(store, KeyOf, Failed)
    ensures log == store + Appends(g, c.ctxs, 0) && UpperAt(c, b, g, log, 0, k)
  {
    log := store;
  }

  lemma UpperStep(c: Climber, b: nat, g: Setting, log: seq<Rec>, n: nat, j: nat) returns (next: seq<Rec>)
    requires Sorted(c.ctxs) && b <= j < |c.ctxs| && 0 < n <= |c.ctxs| && First(c.ctxs, b) && Doomed(c, b)
    requires Resumes(c, g) && UpperOk(c, b, g.done, g.latest) && KeyAt(c, j) !in g.done
    requires UpperAt(c, b, g, log, n - 1, KeyAt(c, j))
    ensures next == log + Output(g, c.ctxs[n - 1], Before(g, c.ctxs, n - 1)) && UpperAt(c, b, g, next, n, KeyAt(c, j))
  {
    next := log + Output(g, c.ctxs[n - 1], Before(g, c.ctxs, n - 1));
    if n - 1 < b { Apart(c.ctxs, n - 1, b, j); }
    if c.ctxs[n - 1] == c.ctxs[j] {
      UpperOwn(c, b, g, log, n - 1);
    } else {
      UpperOther(c, b, g, log, n - 1, j);
    }
  }

  /** A listing of the point itself. */
  lemma UpperOwn(c: Climber, b: nat, g: Setting, log: seq<Rec>, n: nat)
    requires Sorted(c.ctxs) && b <= n < |c.ctxs| && First(c.ctxs, b) && Doomed(c, b)
    requires Resumes(c, g) && KeyAt(c, n) !in g.done && UpperAt(c, b, g, log, n, KeyAt(c, n))
    ensures UpperAt(c, b, g, log + Output(g, c.ctxs[n], Before(g, c.ctxs, n)), n + 1, KeyAt(c, n))
  {
    var out := Output(g, c.ctxs[n], Before(g, c.ctxs, n));
    UpperNext(c, b, g, Before(g, c.ctxs, n), n);
    DoneSnoc(log, out[0]);
    LatestSnoc(log, out[0]);
    assert out == [out[0]];
  }

  /** A listing of another point. */
  lemma UpperOther(c: Climber, b: nat, g: Setting, log: seq<Rec>, n: nat, j: nat)
    requires Sorted(c.ctxs) && b <= j < |c.ctxs| && n < |c.ctxs| && First(c.ctxs, b) && Doomed(c, b)
    requires Resumes(c, g) && UpperOk(c, b, g.done, g.latest) && c.ctxs[n] != c.ctxs[j]
    requires UpperAt(c, b, g, log, n, KeyAt(c, j))
    ensures UpperAt(c, b, g, log + Output(g, c.ctxs[n], Before(g, c.ctxs, n)), n + 1, KeyAt(c, j))
  {
    var out := Output(g, c.ctxs[n], Before(g, c.ctxs, n));
    Untouched(log, out, KeyAt(c, j));
    DoneUntouched(log, out, KeyAt(c, j));
    if n >= b { UpperNext(c, b, g, Before(g, c.ctxs, n), n); }
  }

  /** A session over arms that list this one at most once: what it appends before, in and after this arm's climb. */
  lemma {:induction false} SplitArms(p: Plan, o: Oracle, arms: seq<string>, g: Setting)
    returns (pre: seq<Rec>, post: seq<Rec>)
    requires Once(arms, g.arm) && g.arm in arms && g.stop == p.stop && g.o == o
    ensures Arms(p, o, arms, g.done, g.latest) == pre + (Appends(g, p.ctxs, |p.ctxs|) + post)
    ensures forall r :: r in pre || r in post ==> r.key.arm != g.arm
  {
    var first := g.(arm := arms[0]);
    var mine, others := Appends(first, p.ctxs, |p.ctxs|), Arms(p, o, arms[1..], g.done, g.latest);
    ArmsUnfold(p, o, arms, g.done, g.latest);
    if arms[0] == g.arm {
      pre, post := [], others;
      ArmsFresh(p, o, arms[1..], g.done, g.latest);
      assert [] + (mine + others) == mine + others;
    } else {
      var q;
      q, post := SplitArms(p, o, arms[1..], g);
      pre := mine + q;
      AppendsFresh(first, p.ctxs, |p.ctxs|);
      Assoc(mine, q, Appends(g, p.ctxs, |p.ctxs|) + post);
    }
  }

  /** Stopped anywhere, it leaves a doomed point done only if skipped. */
  lemma UpperCut(p: Plan, c: Climber, b: nat, log: seq<Rec>, g: Setting, j: nat, k: nat) returns (after: seq<Rec>)
    requires Sorted(p.ctxs) && c == ArmOf(p, c.g.o, c.g.arm) && b <= j < |c.ctxs| && First(c.ctxs, b) && Doomed(c, b)
    requires Resumes(c, g) && UpperOk(c, b, g.done, g.latest) && KeyAt(c, j) !in g.done
    requires Once(p.arms, c.g.arm) && c.g.arm in p.arms
    requires KeyAt(c, j) !in Done(log, KeyOf, Failed) && k <= |Arms(p, c.g.o, p.arms, g.done, g.latest)|
    ensures after == log + Arms(p, c.g.o, p.arms, g.done, g.latest)[..k]
    ensures SkipIfDone(KeyAt(c, j), Done(after, KeyOf, Failed), Latest(after, KeyOf))
  {
    var key, mine := KeyAt(c, j), Appends(g, p.ctxs, |p.ctxs|);
    var pre, post := SplitArms(p, c.g.o, p.arms, g);
    if k <= |pre| {
      TakePart(pre, mine + post, k);
      after := log + pre[..k];
      assert forall r :: r in pre[..k] ==> r in pre;
      Untouched(log, pre[..k], key);
    } else {
      TakeBoth(log, pre, mine + post, k);
      DoneUntouched(log, pre, key);
      after := UpperMine(c, b, log + pre, g, j, post, k - |pre|);
    }
  }

  lemma UpperMine(c: Climber, b: nat, log: seq<Rec>, g: Setting, j: nat, post: seq<Rec>, k: nat)
    returns (after: seq<Rec>)
    requires Sorted(c.ctxs) && b <= j < |c.ctxs| && First(c.ctxs, b) && Doomed(c, b)
    requires Resumes(c, g) && UpperOk(c, b, g.done, g.latest) && KeyAt(c, j) !in g.done
    requires KeyAt(c, j) !in Done(log, KeyOf, Failed)
    requires k <= |Appends(g, c.ctxs, |c.ctxs|) + post| && forall r :: r in post ==> r.key.arm != g.arm
    ensures after == log + (Appends(g, c.ctxs, |c.ctxs|) + post)[..k]
    ensures SkipIfDone(KeyAt(c, j), Done(after, KeyOf, Failed), Latest(after, KeyOf))
  {
    var mine := Appends(g, c.ctxs, |c.ctxs|);
    if k <= |mine| {
      var q := AppendsCut(g, c.ctxs, |c.ctxs|, k);
      TakePart(mine, post, k);
      after := UpperKept(c, b, g, log, q, j);
    } else {
      TakeBoth(log, mine, post, k);
      var done := UpperKept(c, b, g, log, |c.ctxs|, j);
      after := done + post[..k - |mine|];
      assert forall r :: r in post[..k - |mine|] ==> r in post;
      Untouched(done, post[..k - |mine|], KeyAt(c, j));
    }
  }

  // ---- many sessions ----

  lemma {:induction false} UpperKilled(p: Plan, o: Oracle, arm: string, b: nat, kills: seq<nat>)
    requires OracleOk(o) && Sorted(p.ctxs) && b < |p.ctxs| && arm in p.arms && Resumable(p, o, arm, b)
    ensures var log := Killed(p, o, kills);
            UpperOk(ArmOf(p, o, arm), b, Done(log, KeyOf, Failed), Latest(log, KeyOf))
  {
    var c := ArmOf(p, o, arm);
    if kills != [] {
      var log := Killed(p, o, kills[..|kills| - 1]);
      UpperKilled(p, o, arm, b, kills[..|kills| - 1]);
      var s, k := Session(p, o, log), kills[|kills| - 1];
      var after := Killed(p, o, kills);
      forall j: nat | b <= j < |c.ctxs|
        ensures SkipIfDone(KeyAt(c, j), Done(after, KeyOf, Failed), Latest(after, KeyOf))
      {
        UpperSession(p, o, arm, b, log, j, if k <= |s| then k else |s|);
        assert s[..|s|] == s;
      }
    }
  }

  lemma UpperSession(p: Plan, o: Oracle, arm: string, b: nat, log: seq<Rec>, j: nat, k: nat)
    requires OracleOk(o) && Sorted(p.ctxs) && b <= j < |p.ctxs| && arm in p.arms && Resumable(p, o, arm, b)
    requires UpperOk(ArmOf(p, o, arm), b, Done(log, KeyOf, Failed), Latest(log, KeyOf)) && k <= |Session(p, o, log)|
    ensures var after := log + Session(p, o, log)[..k];
            SkipIfDone(Key(arm, p.ctxs[j]), Done(after, KeyOf, Failed), Latest(after, KeyOf))
  {
    var c, g := ArmOf(p, o, arm), SettingOf(p, o, arm, log);
    if KeyAt(c, j) in g.done {
      ArmsFresh(p, o, p.arms, g.done, g.latest);
      Untouched(log, Session(p, o, log)[..k], KeyAt(c, j));
    } else {
      var after := UpperCut(p, c, b, log, g, j, k);
    }
  }

  /** A resumed climb arrives at the doomed contexts with the count of the uninterrupted one. */
  lemma ArrivesAt(p: Plan, o: Oracle, arm: string, b: nat, kills: seq<nat>)
    requires OracleOk(o) && Sorted(p.ctxs) && b <= |p.ctxs| && (b < |p.ctxs| ==> First(p.ctxs, b))
    requires Stands(Lower(ArmOf(p, o, arm), b))
    ensures Before(SettingOf(p, o, arm, Killed(p, o, kills)), p.ctxs, b).ooms == StateAt(ArmOf(p, o, arm), b).ooms
  {
    var c, log := Lower(ArmOf(p, o, arm), b), Killed(p, o, kills);
    var g := SettingOf(p, o, arm, log);
    LowerIsPart(p, o, arm, b);
    var m := KilledHolds(p, c, kills);
    HeldFromLog(c, log, m);
    assert g == LadderProofs.Resumed(c, g.done, g.latest);
    ResumeArm(c, m, g.done, g.latest, b);
    SamePart(g, p.ctxs, b, b);
    SamePart(c.g, p.ctxs, b, b);
  }

  /** Left to finish, every doomed point is skipped. */
  lemma UpperFinished(p: Plan, o: Oracle, arm: string, b: nat, kills: seq<nat>, j: nat)
    requires OracleOk(o) && Sorted(p.ctxs) && b <= j < |p.ctxs| && arm in p.arms && Resumable(p, o, arm, b)
    ensures var log, k := Killed(p, o, kills), Key(arm, p.ctxs[j]);
            var m := Latest(log + Session(p, o, log), KeyOf);
            k in m && m[k] == SkipRec(k)
  {
    var c, log, k := ArmOf(p, o, arm), Killed(p, o, kills), Key(arm, p.ctxs[j]);
    var g := SettingOf(p, o, arm, log);
    UpperKilled(p, o, arm, b, kills);
    assert SkipIfDone(KeyAt(c, j), g.done, g.latest);
    if k in g.done {
      ArmsFresh(p, o, p.arms, g.done, g.latest);
      LatestUntouched(log, Session(p, o, log), k);
    } else {
      var e := LastOf(p.ctxs, j);
      ArrivesAt(p, o, arm, b, kills);
      BlockSkips(c, b, g, e);
      LatestAfterArms(p, o, p.arms, g, log, e);
    }
  }

  // ---- transparency ----

  /** The record an uninterrupted run leaves of a point. */
  function FinalRec(c: Climber, b: nat, ctx: nat): Rec
    requires b <= |c.ctxs| && ctx in c.ctxs && c.g.done == {}
  {
    if IndexOf(c.ctxs, ctx) < b then CleanRec(c, IndexOf(c.ctxs, ctx)) else SkipRec(Key(c.g.arm, ctx))
  }

  /** The record of a point in the store of a finished ladder. */
  lemma FinishedRecord(p: Plan, o: Oracle, kills: seq<nat>, arm: string, b: nat, ctx: nat)
    requires OracleOk(o) && Sorted(p.ctxs) && arm in p.arms && Resumable(p, o, arm, b) && ctx in p.ctxs
    ensures var log, k := Killed(p, o, kills), Key(arm, ctx);
            var m := Latest(log + Session(p, o, log), KeyOf);
            k in m && m[k] == FinalRec(ArmOf(p, o, arm), b, ctx)
  {
    var c, log, i := ArmOf(p, o, arm), Killed(p, o, kills), IndexOf(p.ctxs, ctx);
    if i < b {
      LowerIsPart(p, o, arm, b);
      FinishedHolds(p, Lower(c, b), kills);
      LatestHeld(Lower(c, b), log + Session(p, o, log), b, i);
      SamePart(c.g, p.ctxs, b, i);
    } else {
      UpperFinished(p, o, arm, b, kills, i);
    }
  }

  ghost predicate AllResumable(p: Plan, o: Oracle) {
    forall arm :: arm in p.arms ==> exists b: nat :: Resumable(p, o, arm, b)
  }

  lemma FinishedAlike(p: Plan, o: Oracle, kills: seq<nat>, k: Key)
    requires OracleOk(o) && Sorted(p.ctxs) && AllResumable(p, o)
    ensures var log := Killed(p, o, kills);
            var a, b := Latest(log + Session(p, o, log), KeyOf), Latest(Session(p, o, []), KeyOf);
            (k in a <==> k in b) && (k in a ==> a[k] == b[k])
  {
    var log := Killed(p, o, kills);
    assert [] + Session(p, o, []) == Session(p, o, []) && Killed(p, o, []) == [];
    if k.arm in p.arms && k.ctx in p.ctxs {
      var b: nat :| Resumable(p, o, k.arm, b);
      FinishedRecord(p, o, kills, k.arm, b, k.ctx);
      FinishedRecord(p, o, [], k.arm, b, k.ctx);
    } else {
      NoPoint(p, o, kills, k);
      NoPoint(p, o, [], k);
    }
  }

  /** Only points of the plan are recorded. */
  lemma NoPoint(p: Plan, o: Oracle, kills: seq<nat>, k: Key)
    requires k.arm !in p.arms || k.ctx !in p.ctxs
    ensures var log := Killed(p, o, kills); k !in Latest(log + Session(p, o, log), KeyOf)
  {
    var log := Killed(p, o, kills);
    KilledKeys(p, o, kills);
    ArmsFresh(p, o, p.arms, Done(log, KeyOf, Failed), Latest(log, KeyOf));
    LatestIsLast(log + Session(p, o, log), KeyOf, k);
  }

  /** Kill and restart the ladder any number of times, then let it finish: the latest record of every point is the
      one a single uninterrupted run leaves. */
  lemma Transparent(p: Plan, o: Oracle, kills: seq<nat>)
    requires OracleOk(o) && Sorted(p.ctxs) && AllResumable(p, o)
    ensures var log := Killed(p, o, kills);
            Latest(log + Session(p, o, log), KeyOf) == Latest(Session(p, o, []), KeyOf)
  {
    forall k
      ensures var log := Killed(p, o, kills);
              var a, b := Latest(log + Session(p, o, log), KeyOf), Latest(Session(p, o, []), KeyOf);
              (k in a <==> k in b) && (k in a ==> a[k] == b[k])
    {
      FinishedAlike(p, o, kills, k);
    }
  }
}
