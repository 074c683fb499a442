/** Resuming the ladder: where the latency verdicts do not depend on rounding and no context is left half launched, any
    number of kills and restarts leaves the records of the uninterrupted run. */
module LadderProofs {
  import opened Options
  import opened KeyedLog
  import opened Ladder
  import opened LadderRungs

  // ---- the uninterrupted climb ----

  /** One arm of one plan, climbed from an empty store. */
  datatype Climber = Climber(ctxs: seq<nat>, g: Setting)

  function ArmOf(p: Plan, o: Oracle, arm: string): Climber {
    Climber(p.ctxs, Setting(arm, p.stop, o, {}, map[]))
  }

  ghost predicate ClimberOk(c: Climber) {
    OracleOk(c.g.o) && Sorted(c.ctxs) && c.g.done == {} && c.g.latest == map[]
  }

  function KeyAt(c: Climber, n: nat): Key
    requires n < |c.ctxs|
  {
    Key(c.g.arm, c.ctxs[n])
  }

  function StateAt(c: Climber, n: nat): Live
    requires n <= |c.ctxs|
  {
    Before(c.g, c.ctxs, n)
  }

  /** The record of rung `n`. */
  function CleanRec(c: Climber, n: nat): (r: Rec)
    requires n < |c.ctxs| && c.g.done == {}
    ensures r.key == KeyAt(c, n)
  {
    Output(c.g, c.ctxs[n], StateAt(c, n))[0]
  }

  /** The baseline a replay of the first `n` records has: the last recorded rate that is not zero. */
  function Replayed(c: Climber, n: nat): Option<real>
    requires n <= |c.ctxs| && c.g.done == {}
  {
    if n == 0 then None
    else
      var r := CleanRec(c, n - 1);
      if r.status == Ok && r.rate.Some? && r.rate.value != 0.0 then r.rate else Replayed(c, n - 1)
  }

  function RateAt(c: Climber, n: nat): Option<real>
    requires n < |c.ctxs|
  {
    RateOf(c.g.o(KeyAt(c, n)))
  }

  /** Rung `n` is the first of its context. */
  predicate First(ctxs: seq<nat>, n: nat)
    requires n < |ctxs|
  {
    n == 0 || ctxs[n - 1] != ctxs[n]
  }

  /** If the rung is launched, and first of its context, its verdict against the exact previous rate is the one
      against the recorded rate. */
  predicate VerdictStands(c: Climber, n: nat)
    requires n < |c.ctxs| && c.g.done == {}
  {
    StateAt(c, n).ooms < c.g.stop && First(c.ctxs, n) ==>
      (Cliff(RateAt(c, n), StateAt(c, n).last) <==> Cliff(RateAt(c, n), Replayed(c, n)))
  }

  /** The rung is not the last launched one of a context whose further listings are skipped. */
  predicate Settled(c: Climber, n: nat)
    requires n < |c.ctxs| && c.g.done == {}
  {
    n + 1 < |c.ctxs| && c.ctxs[n] == c.ctxs[n + 1] && CleanRec(c, n + 1).status == Skipped ==>
      CleanRec(c, n).status == Skipped
  }

  ghost predicate VerdictsStand(c: Climber)
    requires c.g.done == {}
  {
    forall n :: 0 <= n < |c.ctxs| ==> VerdictStands(c, n)
  }

  ghost predicate AllSettled(c: Climber)
    requires c.g.done == {}
  {
    forall n :: 0 <= n < |c.ctxs| ==> Settled(c, n)
  }

  /** Launched twice in a row, a context is recorded alike. */
  lemma SameAgain(g: Setting, c: nat, s: Live)
    requires OracleOk(g.o) && Key(g.arm, c) !in g.done
    requires s.ooms >= g.stop || Next(g, c, s).ooms < g.stop
    ensures Output(g, c, Next(g, c, s)) == Output(g, c, s)
  {
    assert RawOk(g.o(Key(g.arm, c)));
    RateAgainstItself(g.o(Key(g.arm, c)));
  }

  lemma SkippedIff(c: Climber, n: nat)
    requires ClimberOk(c) && n < |c.ctxs|
    ensures CleanRec(c, n).status == Skipped <==> StateAt(c, n).ooms >= c.g.stop
    ensures CleanRec(c, n).status == Skipped ==> CleanRec(c, n) == Rec(KeyAt(c, n), Skipped, None, false)
  {
    assert RawOk(c.g.o(KeyAt(c, n)));
  }

  /** All listings of a context have one record. */
  lemma {:induction false} Uniform(c: Climber, i: nat, j: nat)
    requires ClimberOk(c) && AllSettled(c) && i <= j < |c.ctxs| && c.ctxs[i] == c.ctxs[j]
    ensures CleanRec(c, i) == CleanRec(c, j)
    decreases j
  {
    if i < j {
      assert c.ctxs[i] <= c.ctxs[j - 1] <= c.ctxs[j];
      Uniform(c, i, j - 1);
      assert Settled(c, j - 1);
      SkippedIff(c, j - 1);
      SkippedIff(c, j);
      SameAgain(c.g, c.ctxs[j], StateAt(c, j - 1));
    }
  }

  // ---- resuming one arm ----

  /** What the store held of this arm on opening: the records of the first `m` rungs, those without an error being
      done. */
  ghost predicate HeldBy(c: Climber, m: nat, done: set<Key>, latest: map<Key, Rec>)
    requires c.g.done == {}
  {
    && m <= |c.ctxs|
    && (forall n :: 0 <= n < m ==> KeyAt(c, n) in latest && latest[KeyAt(c, n)] == CleanRec(c, n))
    && forall n :: 0 <= n < |c.ctxs| ==> DoneRight(c, m, done, n)
  }

  ghost predicate DoneRight(c: Climber, m: nat, done: set<Key>, n: nat)
    requires n < |c.ctxs| && c.g.done == {}
  {
    KeyAt(c, n) in done <==> n < m && !CleanRec(c, n).error
  }

  function Resumed(c: Climber, done: set<Key>, latest: map<Key, Rec>): Setting {
    c.g.(done := done, latest := latest)
  }

  /** A resumed state that stands where the uninterrupted climb stands: same count; the replay's baseline while held
      rungs remain, and either baseline afterwards. */
  ghost predicate InStep(c: Climber, s: Live, n: nat, m: nat)
    requires n <= |c.ctxs| && c.g.done == {}
  {
    && s.ooms == StateAt(c, n).ooms
    && (s.last == Replayed(c, n) || (n > m && s.last == StateAt(c, n).last))
  }

  /** If the rung is launched again, its verdict is the one recorded. */
  ghost predicate SameVerdict(c: Climber, s: Live, n: nat)
    requires n < |c.ctxs|
  {
    StateAt(c, n).ooms < c.g.stop ==> (Cliff(RateAt(c, n), s.last) <==> Cliff(RateAt(c, n), StateAt(c, n).last))
  }

  /** Replaying a record follows the climb that made it. */
  lemma ReplayFollows(c: Climber, s: Live, n: nat)
    requires ClimberOk(c) && n < |c.ctxs| && s.ooms == StateAt(c, n).ooms && s.last == Replayed(c, n)
    requires !CleanRec(c, n).error
    ensures var s', c' := ReplayStep(s, CleanRec(c, n)), StateAt(c, n + 1);
            s'.ooms == c'.ooms && s'.last == Replayed(c, n + 1)
  {
    assert RawOk(c.g.o(KeyAt(c, n)));
  }

  /** A failed rung has no rate, so running it again depends on no baseline and changes none. */
  lemma FailedHasNoRate(c: Climber, n: nat)
    requires ClimberOk(c) && n < |c.ctxs| && CleanRec(c, n).error
    ensures RateAt(c, n).None? && StateAt(c, n).ooms < c.g.stop
  {
    assert RawOk(c.g.o(KeyAt(c, n)));
  }

  /** Running a rung again with the recorded verdict follows the climb. */
  lemma LaunchFollows(c: Climber, s: Live, n: nat, m: nat)
    requires ClimberOk(c) && n < |c.ctxs| && InStep(c, s, n, m) && SameVerdict(c, s, n) && StateAt(c, n).ooms < c.g.stop
    requires n < m ==> CleanRec(c, n).error
    ensures RecordOf(KeyAt(c, n), c.g.o(KeyAt(c, n)), s.last) == CleanRec(c, n)
    ensures InStep(c, LiveStep(s, KeyAt(c, n), c.g.o(KeyAt(c, n))), n + 1, m)
  {
    assert RawOk(c.g.o(KeyAt(c, n)));
    if n < m { FailedHasNoRate(c, n); }
  }

  /** One rung of a resumed climb. */
  lemma RungFollows(c: Climber, m: nat, done: set<Key>, latest: map<Key, Rec>, s: Live, n: nat)
    requires ClimberOk(c) && HeldBy(c, m, done, latest) && n < |c.ctxs| && InStep(c, s, n, m)
    requires KeyAt(c, n) !in done ==> SameVerdict(c, s, n)
    ensures Output(Resumed(c, done, latest), c.ctxs[n], s) == if KeyAt(c, n) in done then [] else [CleanRec(c, n)]
    ensures InStep(c, Next(Resumed(c, done, latest), c.ctxs[n], s), n + 1, m)
  {
    assert DoneRight(c, m, done, n);
    SkippedIff(c, n);
    if KeyAt(c, n) in done {
      ReplayFollows(c, s, n);
    } else if s.ooms < c.g.stop {
      LaunchFollows(c, s, n, m);
    }
  }

  /** Until the held rungs are behind, no verdict matters. */
  lemma {:induction false} ReplayTo(c: Climber, m: nat, done: set<Key>, latest: map<Key, Rec>, n: nat)
    requires ClimberOk(c) && HeldBy(c, m, done, latest) && n <= m
    ensures InStep(c, Before(Resumed(c, done, latest), c.ctxs, n), n, m)
  {
    if n > 0 {
      var s := Before(Resumed(c, done, latest), c.ctxs, n - 1);
      ReplayTo(c, m, done, latest, n - 1);
      HeldVerdict(c, m, done, latest, s, n - 1);
      RungFollows(c, m, done, latest, s, n - 1);
    }
  }

  lemma HeldVerdict(c: Climber, m: nat, done: set<Key>, latest: map<Key, Rec>, s: Live, n: nat)
    requires ClimberOk(c) && HeldBy(c, m, done, latest) && n < m
    ensures KeyAt(c, n) !in done ==> SameVerdict(c, s, n)
  {
    assert DoneRight(c, m, done, n);
    if CleanRec(c, n).error { FailedHasNoRate(c, n); }
  }

  /** A context launched twice in a row gets the same verdict both times, whichever baseline it began with. */
  lemma VerdictAgain(c: Climber, s: Live, n: nat)
    requires ClimberOk(c) && n + 1 < |c.ctxs| && c.ctxs[n] == c.ctxs[n + 1] && s.ooms == StateAt(c, n).ooms
             && SameVerdict(c, s, n)
    ensures SameVerdict(c, Next(c.g, c.ctxs[n], s), n + 1)
  {
    assert RawOk(c.g.o(KeyAt(c, n)));
    RateAgainstItself(c.g.o(KeyAt(c, n)));
  }

  /** At every rung that is not done, a resumed climb passes the recorded verdict. */
  lemma NextVerdict(c: Climber, m: nat, done: set<Key>, latest: map<Key, Rec>, n: nat)
    requires ClimberOk(c) && VerdictsStand(c) && HeldBy(c, m, done, latest) && n < |c.ctxs| && KeyAt(c, n) !in done
    requires var g := Resumed(c, done, latest);
             && InStep(c, Before(g, c.ctxs, n), n, m)
             && (n > 0 ==> StateAt(c, n - 1).ooms == Before(g, c.ctxs, n - 1).ooms)
             && (n > 0 && KeyAt(c, n - 1) !in done ==> SameVerdict(c, Before(g, c.ctxs, n - 1), n - 1))
    ensures SameVerdict(c, Before(Resumed(c, done, latest), c.ctxs, n), n)
  {
    var g := Resumed(c, done, latest);
    var s := Before(g, c.ctxs, n);
    if n < m {
      HeldVerdict(c, m, done, latest, s, n);
    } else if First(c.ctxs, n) {
      assert VerdictStands(c, n);
    } else {
      VerdictAgain(c, Before(g, c.ctxs, n - 1), n - 1);
    }
  }

  /** A resumed climb follows the uninterrupted one: it appends exactly the records that were not done. */
  lemma {:induction false} ResumeArm(c: Climber, m: nat, done: set<Key>, latest: map<Key, Rec>, n: nat)
    requires ClimberOk(c) && VerdictsStand(c) && HeldBy(c, m, done, latest) && n <= |c.ctxs|
    ensures var g := Resumed(c, done, latest);
            && Appends(g, c.ctxs, n) == NotDone(c, done, n)
            && InStep(c, Before(g, c.ctxs, n), n, m)
            && (n < |c.ctxs| && KeyAt(c, n) !in done ==> SameVerdict(c, Before(g, c.ctxs, n), n))
  {
    if n > 0 {
      ResumeArm(c, m, done, latest, n - 1);
      ResumeRung(c, m, done, latest, n - 1);
    }
    if n < |c.ctxs| && KeyAt(c, n) !in done { NextVerdict(c, m, done, latest, n); }
  }

  lemma ResumeRung(c: Climber, m: nat, done: set<Key>, latest: map<Key, Rec>, n: nat)
    requires ClimberOk(c) && HeldBy(c, m, done, latest) && n < |c.ctxs|
    requires var g := Resumed(c, done, latest);
             && Appends(g, c.ctxs, n) == NotDone(c, done, n) && InStep(c, Before(g, c.ctxs, n), n, m)
             && (KeyAt(c, n) !in done ==> SameVerdict(c, Before(g, c.ctxs, n), n))
    ensures var g := Resumed(c, done, latest);
            Appends(g, c.ctxs, n + 1) == NotDone(c, done, n + 1) && InStep(c, Before(g, c.ctxs, n + 1), n + 1, m)
  {
    RungFollows(c, m, done, latest, Before(Resumed(c, done, latest), c.ctxs, n), n);
  }

  /** The records of the first `n` rungs that are not done. */
  function NotDone(c: Climber, done: set<Key>, n: nat): seq<Rec>
    requires n <= |c.ctxs| && c.g.done == {}
  {
    if n == 0 then []
    else NotDone(c, done, n - 1) + if KeyAt(c, n - 1) in done then [] else [CleanRec(c, n - 1)]
  }

  // ---- what a store holds of an arm ----

  ghost predicate Among(c: Climber, r: Rec, m: nat)
    requires m <= |c.ctxs| && c.g.done == {}
  {
    exists i :: 0 <= i < m && r == CleanRec(c, i)
  }

  /** A point of this climb. */
  predicate Of(c: Climber, r: Rec) {
    r.key.arm == c.g.arm && r.key.ctx in c.ctxs
  }

  /** Of this climb, the store holds the records of the first `m` rungs, each at least once, and nothing else; no
      context is cut in two. */
  ghost predicate Holds(c: Climber, log: seq<Rec>, m: nat)
    requires c.g.done == {}
  {
    && m <= |c.ctxs| && (m < |c.ctxs| ==> First(c.ctxs, m))
    && (forall r :: r in log && Of(c, r) ==> Among(c, r, m))
    && forall i :: 0 <= i < m ==> CleanRec(c, i) in log
  }

  lemma OfOneKey(c: Climber, log: seq<Rec>, m: nat, r: Rec, n: nat)
    requires ClimberOk(c) && AllSettled(c) && Holds(c, log, m) && r in log && n < |c.ctxs| && r.key == KeyAt(c, n)
    ensures r == CleanRec(c, n) && n < m
  {
    assert Of(c, r);
    var i :| 0 <= i < m && r == CleanRec(c, i);
    if i <= n { Uniform(c, i, n); } else { Uniform(c, n, i); }
    if n >= m { Apart(c.ctxs, i, m, n); }
  }

  lemma Apart(ctxs: seq<nat>, i: nat, m: nat, n: nat)
    requires Sorted(ctxs) && i < m <= n < |ctxs| && First(ctxs, m)
    ensures ctxs[i] < ctxs[n]
  {
    assert ctxs[i] <= ctxs[m - 1] < ctxs[m] <= ctxs[n];
  }

  lemma LatestHeld(c: Climber, log: seq<Rec>, m: nat, n: nat)
    requires ClimberOk(c) && AllSettled(c) && Holds(c, log, m) && n < m
    ensures KeyAt(c, n) in Latest(log, KeyOf) && Latest(log, KeyOf)[KeyAt(c, n)] == CleanRec(c, n)
  {
    var k := KeyAt(c, n);
    assert CleanRec(c, n) in log;
    LatestIsLast(log, KeyOf, k);
    var j :| 0 <= j < |log| && log[j] == CleanRec(c, n);
    assert KeyOf(log[j]) == Some(k);
    var l: nat :| IsLast(log, KeyOf, k, l) && Latest(log, KeyOf)[k] == log[l];
    OfOneKey(c, log, m, log[l], n);
  }

  lemma DoneHeld(c: Climber, log: seq<Rec>, m: nat, n: nat)
    requires ClimberOk(c) && AllSettled(c) && Holds(c, log, m) && n < |c.ctxs|
    ensures DoneRight(c, m, Done(log, KeyOf, Failed), n)
  {
    var k := KeyAt(c, n);
    DoneHas(log, KeyOf, Failed, k);
    if k in Done(log, KeyOf, Failed) {
      var j :| 0 <= j < |log| && !Failed(log[j]) && KeyOf(log[j]) == Some(k);
      OfOneKey(c, log, m, log[j], n);
    }
    if n < m && !CleanRec(c, n).error {
      var j :| 0 <= j < |log| && log[j] == CleanRec(c, n);
      assert !Failed(log[j]) && KeyOf(log[j]) == Some(k);
    }
  }

  lemma HeldFromLog(c: Climber, log: seq<Rec>, m: nat)
    requires ClimberOk(c) && AllSettled(c) && Holds(c, log, m)
    ensures HeldBy(c, m, Done(log, KeyOf, Failed), Latest(log, KeyOf))
  {
    forall n | 0 <= n < m
      ensures KeyAt(c, n) in Latest(log, KeyOf) && Latest(log, KeyOf)[KeyAt(c, n)] == CleanRec(c, n)
    {
      LatestHeld(c, log, m, n);
    }
    forall n | 0 <= n < |c.ctxs| ensures DoneRight(c, m, Done(log, KeyOf, Failed), n) { DoneHeld(c, log, m, n); }
  }

  // ---- what a session leaves ----

  /** The end of the context that rung `q - 1` belongs to. */
  function BlockEnd(ctxs: seq<nat>, q: nat): (e: nat)
    requires q <= |ctxs|
    ensures q <= e <= |ctxs| && (e < |ctxs| ==> First(ctxs, e))
    ensures forall i :: q <= i < e ==> q > 0 && ctxs[i] == ctxs[q - 1]
    decreases |ctxs| - q
  {
    if q == |ctxs| || First(ctxs, q) then q else BlockEnd(ctxs, q + 1)
  }

  /** Every first part of the records not done is that of some first rungs. */
  lemma {:induction false} PartOf(c: Climber, done: set<Key>, n: nat, k: nat) returns (q: nat)
    requires n <= |c.ctxs| && c.g.done == {} && k <= |NotDone(c, done, n)|
    ensures q <= n && NotDone(c, done, n)[..k] == NotDone(c, done, q)
    ensures k == |NotDone(c, done, n)| ==> q == n
  {
    if k == |NotDone(c, done, n)| {
      q := n;
    } else {
      q := PartOf(c, done, n - 1, k);
    }
  }

  lemma {:induction false} NotDoneHas(c: Climber, done: set<Key>, q: nat)
    requires q <= |c.ctxs| && c.g.done == {}
    ensures forall r :: r in NotDone(c, done, q) ==> Among(c, r, q)
    ensures forall i :: 0 <= i < q && KeyAt(c, i) !in done ==> CleanRec(c, i) in NotDone(c, done, q)
  {
    if q > 0 {
      NotDoneHas(c, done, q - 1);
      forall r | r in NotDone(c, done, q - 1) ensures Among(c, r, q) {
        var i :| 0 <= i < q - 1 && r == CleanRec(c, i);
      }
    }
  }

  /** Appending the records of the first `q` rungs that were not done on opening. */
  lemma GrowsTo(c: Climber, log: seq<Rec>, m0: nat, m: nat, done: set<Key>, latest: map<Key, Rec>, q: nat)
    returns (m': nat)
    requires ClimberOk(c) && AllSettled(c) && HeldBy(c, m0, done, latest) && Holds(c, log, m) && m0 <= m
             && q <= |c.ctxs|
    ensures Holds(c, log + NotDone(c, done, q), m') && m <= m' && (q == |c.ctxs| ==> m' == |c.ctxs|)
  {
    var more := NotDone(c, done, q);
    var e := BlockEnd(c.ctxs, q);
    m' := if m < e then e else m;
    NotDoneHas(c, done, q);
    forall r | r in log + more && Of(c, r) ensures Among(c, r, m') {
      if r in log {
        var i :| 0 <= i < m && r == CleanRec(c, i);
      } else {
        var i :| 0 <= i < q && r == CleanRec(c, i);
      }
    }
    forall i | 0 <= i < m' ensures CleanRec(c, i) in log + more { NowHeld(c, log, m0, m, done, latest, q, i); }
  }

  lemma NowHeld(c: Climber, log: seq<Rec>, m0: nat, m: nat, done: set<Key>, latest: map<Key, Rec>, q: nat, i: nat)
    requires ClimberOk(c) && AllSettled(c) && HeldBy(c, m0, done, latest) && Holds(c, log, m) && m0 <= m
             && q <= |c.ctxs|
    requires i < m || i < BlockEnd(c.ctxs, q)
    ensures i < |c.ctxs| && CleanRec(c, i) in log + NotDone(c, done, q)
  {
    if i >= m {
      var j := if i < q then i else q - 1;
      Uniform(c, j, i);
      NotDoneHas(c, done, q);
      assert DoneRight(c, m0, done, i);
    }
  }

  /** One arm's climb, stopped anywhere. */
  lemma CutClimb(c: Climber, log: seq<Rec>, m0: nat, m: nat, done: set<Key>, latest: map<Key, Rec>, k: nat)
    returns (m': nat)
    requires ClimberOk(c) && AllSettled(c) && VerdictsStand(c) && HeldBy(c, m0, done, latest) && Holds(c, log, m)
             && m0 <= m
    requires k <= |RestOf(Resumed(c, done, latest), c.ctxs, FRESH)|
    ensures var out := RestOf(Resumed(c, done, latest), c.ctxs, FRESH);
            Holds(c, log + out[..k], m') && m <= m' && (k == |out| ==> m' == |c.ctxs|)
  {
    WholeClimb(Resumed(c, done, latest), c.ctxs);
    ResumeArm(c, m0, done, latest, |c.ctxs|);
    var q := PartOf(c, done, |c.ctxs|, k);
    m' := GrowsTo(c, log, m0, m, done, latest, q);
  }

  /** Records of other points change nothing for this climb. */
  lemma OtherPoints(c: Climber, log: seq<Rec>, more: seq<Rec>, m: nat)
    requires c.g.done == {} && Holds(c, log, m) && forall r :: r in more ==> !Of(c, r)
    ensures Holds(c, log + more, m)
  {}

  ghost predicate Stands(c: Climber) {
    ClimberOk(c) && VerdictsStand(c) && AllSettled(c)
  }

  /** Some first contexts of the plan, whole, climbed by one of its arms. */
  ghost predicate IsPart(p: Plan, c: Climber) {
    && |c.ctxs| <= |p.ctxs| && c.ctxs == p.ctxs[..|c.ctxs|] && (|c.ctxs| < |p.ctxs| ==> First(p.ctxs, |c.ctxs|))
    && c.g == Setting(c.g.arm, p.stop, c.g.o, {}, map[])
  }

  /** A session over any list of arms, stopped anywhere. */
  lemma {:induction false} CutArms(p: Plan, c: Climber, arms: seq<string>, log: seq<Rec>, m0: nat, m: nat,
                                   done: set<Key>, latest: map<Key, Rec>, k: nat) returns (m': nat)
    requires Sorted(p.ctxs) && Stands(c) && IsPart(p, c) && HeldBy(c, m0, done, latest) && Holds(c, log, m) && m0 <= m
    requires k <= |Arms(p, c.g.o, arms, done, latest)|
    ensures var s := Arms(p, c.g.o, arms, done, latest);
            Holds(c, log + s[..k], m') && m <= m' && (k == |s| && c.g.arm in arms ==> m' == |c.ctxs|)
  {
    if arms == [] {
      m' := m;
      assert log + [] == log;
    } else {
      var g := Setting(arms[0], p.stop, c.g.o, done, latest);
      var mine, others := RestOf(g, p.ctxs, FRESH), Arms(p, c.g.o, arms[1..], done, latest);
      m' := CutFirst(p, c, arms[0], log, m0, m, done, latest, if k < |mine| then k else |mine|);
      if k < |mine| {
        TakePart(mine, others, k);
      } else {
        var q := CutArms(p, c, arms[1..], log + mine, m0, m', done, latest, k - |mine|);
        TakeBoth(log, mine, others, k);
        m' := q;
      }
    }
  }

  lemma TakePart<T>(a: seq<T>, b: seq<T>, k: nat)
    requires k <= |a|
    ensures (a + b)[..k] == a[..k]
  {}

  lemma TakeBoth<T>(x: seq<T>, a: seq<T>, b: seq<T>, k: nat)
    requires |a| <= k <= |a| + |b|
    ensures a[..|a|] == a && x + (a + b)[..k] == (x + a) + b[..k - |a|]
  {
    assert (a + b)[..k] == a + b[..k - |a|];
  }

  /** One arm of a session, stopped anywhere. */
  lemma CutFirst(p: Plan, c: Climber, arm: string, log: seq<Rec>, m0: nat, m: nat, done: set<Key>,
                 latest: map<Key, Rec>, k: nat)
    returns (m': nat)
    requires Sorted(p.ctxs) && Stands(c) && IsPart(p, c) && HeldBy(c, m0, done, latest) && Holds(c, log, m) && m0 <= m
    requires k <= |RestOf(Setting(arm, p.stop, c.g.o, done, latest), p.ctxs, FRESH)|
    ensures var mine := RestOf(Setting(arm, p.stop, c.g.o, done, latest), p.ctxs, FRESH);
            && Holds(c, log + mine[..k], m') && m <= m' && (k == |mine| && arm == c.g.arm ==> m' == |c.ctxs|)
            && (k == |mine| ==> mine[..k] == mine)
  {
    var g := Setting(arm, p.stop, c.g.o, done, latest);
    var mine := RestOf(g, p.ctxs, FRESH);
    WholeClimb(g, p.ctxs);
    if arm == c.g.arm {
      var lower, rest := LowerFirst(p, c, g);
      m' := CutClimb(c, log, m0, m, done, latest, if k <= |lower| then k else |lower|);
      if k <= |lower| {
        TakePart(lower, rest, k);
      } else {
        TakeBoth(log, lower, rest, k);
        OtherPoints(c, log + lower, rest[..k - |lower|], m');
      }
    } else {
      m' := m;
      AppendsFresh(g, p.ctxs, |p.ctxs|);
      OtherPoints(c, log, mine[..k], m);
    }
  }

  /** An arm's climb over the plan begins with its climb over the first contexts. */
  lemma LowerFirst(p: Plan, c: Climber, g: Setting) returns (lower: seq<Rec>, rest: seq<Rec>)
    requires Sorted(p.ctxs) && IsPart(p, c)
    ensures lower == RestOf(g, c.ctxs, FRESH) && RestOf(g, p.ctxs, FRESH) == lower + rest
    ensures forall r :: r in rest ==> !Of(c, r)
  {
    var b := |c.ctxs|;
    WholeClimb(g, p.ctxs);
    WholeClimb(g, c.ctxs);
    SamePart(g, p.ctxs, b, b);
    lower := Appends(g, p.ctxs, b);
    rest := AppendsSplit(g, p.ctxs, b, |p.ctxs|);
    forall r | r in rest ensures !Of(c, r) {
      var j :| b <= j < |p.ctxs| && r.key == Key(g.arm, p.ctxs[j]);
      NotBelow(p.ctxs, b, j);
    }
  }

  lemma NotBelow(ctxs: seq<nat>, b: nat, j: nat)
    requires Sorted(ctxs) && b <= j < |ctxs| && First(ctxs, b)
    ensures ctxs[j] !in ctxs[..b]
  {
    forall i: nat | i < b ensures ctxs[i] != ctxs[j] { Apart(ctxs, i, b, j); }
  }

  /** In every reachable store. */
  lemma {:induction false} KilledHolds(p: Plan, c: Climber, kills: seq<nat>) returns (m: nat)
    requires Sorted(p.ctxs) && Stands(c) && IsPart(p, c)
    ensures Holds(c, Killed(p, c.g.o, kills), m)
  {
    if kills == [] {
      m := 0;
    } else {
      var log := Killed(p, c.g.o, kills[..|kills| - 1]);
      var q := KilledHolds(p, c, kills[..|kills| - 1]);
      HeldFromLog(c, log, q);
      var s, k := Session(p, c.g.o, log), kills[|kills| - 1];
      assert s[..|s|] == s;
      m := CutArms(p, c, p.arms, log, q, q, Done(log, KeyOf, Failed), Latest(log, KeyOf), if k <= |s| then k else |s|);
    }
  }

  /** Killed any number of times and then left to finish, the store holds all the climb's records. */
  lemma FinishedHolds(p: Plan, c: Climber, kills: seq<nat>)
    requires Sorted(p.ctxs) && Stands(c) && IsPart(p, c) && c.g.arm in p.arms
    ensures var log := Killed(p, c.g.o, kills); Holds(c, log + Session(p, c.g.o, log), |c.ctxs|)
  {
    var log := Killed(p, c.g.o, kills);
    var s := Session(p, c.g.o, log);
    var m := KilledHolds(p, c, kills);
    HeldFromLog(c, log, m);
    assert s[..|s|] == s;
    var m' := CutArms(p, c, p.arms, log, m, m, Done(log, KeyOf, Failed), Latest(log, KeyOf), |s|);
  }

  lemma WholeIsPart(p: Plan, o: Oracle, arm: string)
    ensures IsPart(p, ArmOf(p, o, arm))
  {
    assert p.ctxs[..|p.ctxs|] == p.ctxs;
  }

  lemma {:induction false} KilledKeys(p: Plan, o: Oracle, kills: seq<nat>)
    ensures forall r :: r in Killed(p, o, kills) ==> r.key.arm in p.arms && r.key.ctx in p.ctxs
  {
    if kills != [] {
      var log := Killed(p, o, kills[..|kills| - 1]);
      KilledKeys(p, o, kills[..|kills| - 1]);
      ArmsFresh(p, o, p.arms, Done(log, KeyOf, Failed), Latest(log, KeyOf));
    }
  }

  ghost predicate AllStand(p: Plan, o: Oracle) {
    forall arm :: arm in p.arms ==> Stands(ArmOf(p, o, arm))
  }
}
