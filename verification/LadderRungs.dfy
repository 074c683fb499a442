/** A climb of the ladder rung by rung: what every rung shows the loop, what it appends, and which record of a
    session comes from which rung. */
module LadderRungs {
  import opened Seqs
  import opened Options
  import opened KeyedLog
  import opened Ladder

  // ---- what the rungs show the loop ----

  /** What the store held on opening, and how the arm is climbed. */
  datatype Setting = Setting(arm: string, stop: int, o: Oracle, done: set<Key>, latest: map<Key, Rec>)

  /** What a rung appends: nothing when it is done. */
  function Output(g: Setting, c: nat, s: Live): seq<Rec> {
    var k := Key(g.arm, c);
    if k in g.done then []
    else if s.ooms >= g.stop then [Rec(k, Skipped, None, false)]
    else [RecordOf(k, g.o(k), s.last)]
  }

  function Next(g: Setting, c: nat, s: Live): Live {
    var k := Key(g.arm, c);
    if k in g.done then (if k in g.latest then ReplayStep(s, g.latest[k]) else s)
    else if s.ooms >= g.stop then s
    else LiveStep(s, k, g.o(k))
  }

  /** The status a rung shows: the recorded one when it is replayed, else the one appended. */
  function Shows(g: Setting, c: nat, s: Live): Status {
    var k := Key(g.arm, c);
    if k in g.done then (if k in g.latest then g.latest[k].status else Skipped)
    else Output(g, c, s)[0].status
  }

  /** The loop's state before rung `n`. */
  function Before(g: Setting, ctxs: seq<nat>, n: nat): Live
    requires n <= |ctxs|
  {
    if n == 0 then FRESH else Next(g, ctxs[n - 1], Before(g, ctxs, n - 1))
  }

  /** What the first `n` rungs append. */
  function Appends(g: Setting, ctxs: seq<nat>, n: nat): seq<Rec>
    requires n <= |ctxs|
  {
    if n == 0 then [] else Appends(g, ctxs, n - 1) + Output(g, ctxs[n - 1], Before(g, ctxs, n - 1))
  }

  function Shown(g: Setting, ctxs: seq<nat>, n: nat): Status
    requires n < |ctxs|
  {
    Shows(g, ctxs[n], Before(g, ctxs, n))
  }

  /** The climb, rung by rung. */
  lemma {:induction false} ClimbIs(g: Setting, ctxs: seq<nat>, n: nat)
    requires n <= |ctxs|
    ensures RestOf(g, ctxs, FRESH) == Appends(g, ctxs, n) + RestOf(g, ctxs[n..], Before(g, ctxs, n))
  {
    if n == 0 {
      assert ctxs[0..] == ctxs && [] + RestOf(g, ctxs, FRESH) == RestOf(g, ctxs, FRESH);
    } else {
      ClimbIs(g, ctxs, n - 1);
      var rest, s := ctxs[n - 1..], Before(g, ctxs, n - 1);
      assert rest[0] == ctxs[n - 1] && rest[1..] == ctxs[n..];
      ClimbStep(g, rest, s);
      Assoc(Appends(g, ctxs, n - 1), Output(g, rest[0], s), RestOf(g, rest[1..], Next(g, rest[0], s)));
    }
  }

  function RestOf(g: Setting, ctxs: seq<nat>, s: Live): seq<Rec> {
    Climb(g.arm, ctxs, g.stop, g.o, g.done, g.latest, s)
  }

  lemma ClimbStep(g: Setting, ctxs: seq<nat>, s: Live)
    requires ctxs != []
    ensures RestOf(g, ctxs, s) == Output(g, ctxs[0], s) + RestOf(g, ctxs[1..], Next(g, ctxs[0], s))
  {
    if Key(g.arm, ctxs[0]) in g.done {
      var rest := RestOf(g, ctxs[1..], Next(g, ctxs[0], s));
      assert [] + rest == rest;
    }
  }

  lemma WholeClimb(g: Setting, ctxs: seq<nat>)
    ensures RestOf(g, ctxs, FRESH) == Appends(g, ctxs, |ctxs|)
  {
    ClimbIs(g, ctxs, |ctxs|);
    assert ctxs[|ctxs|..] == [];
    assert Appends(g, ctxs, |ctxs|) + [] == Appends(g, ctxs, |ctxs|);
  }

  lemma AppendsNext(store: seq<Rec>, g: Setting, ctxs: seq<nat>, n: nat)
    requires 0 < n <= |ctxs|
    ensures store + Appends(g, ctxs, n)
         == (store + Appends(g, ctxs, n - 1)) + Output(g, ctxs[n - 1], Before(g, ctxs, n - 1))
  {
    Assoc(store, Appends(g, ctxs, n - 1), Output(g, ctxs[n - 1], Before(g, ctxs, n - 1)));
  }

  /** A session climbs its first arm, then the others. */
  lemma ArmsUnfold(p: Plan, o: Oracle, arms: seq<string>, done: set<Key>, latest: map<Key, Rec>)
    requires arms != []
    ensures Arms(p, o, arms, done, latest)
         == Appends(Setting(arms[0], p.stop, o, done, latest), p.ctxs, |p.ctxs|) + Arms(p, o, arms[1..], done, latest)
  {
    WholeClimb(Setting(arms[0], p.stop, o, done, latest), p.ctxs);
  }

  // ---- repeated rungs ----

  ghost predicate Sorted(ctxs: seq<nat>) {
    forall i, j :: 0 <= i < j < |ctxs| ==> ctxs[i] <= ctxs[j]
  }

  /** The same status again, or a skip after a ceiling. */
  predicate Follows(later: Status, earlier: Status) {
    later == earlier || (later == Skipped && Ceiling(earlier))
  }

  lemma RateAgainstItself(r: Raw)
    requires RawOk(r)
    ensures !Cliff(RateOf(r), RateOf(r))
  {
    if RateOf(r).Some? {
      NonNegative(r.wall, r.tokens as real / 1000.0);
    }
  }

  lemma NonNegative(x: real, y: real)
    requires x >= 0.0 && y > 0.0
    ensures x / y >= 0.0
  {}

  /** A context listed again right after itself shows the same, unless its first launch reached the ceiling. */
  lemma ShowsAgain(g: Setting, c: nat, s: Live)
    requires OracleOk(g.o)
    ensures Follows(Shows(g, c, Next(g, c, s)), Shows(g, c, s))
  {
    var k := Key(g.arm, c);
    assert RawOk(g.o(k));
    RateAgainstItself(g.o(k));
  }

  /** All rungs of one context, in a sorted list. */
  lemma {:induction false} BlockFollows(g: Setting, ctxs: seq<nat>, i: nat, j: nat)
    requires OracleOk(g.o) && Sorted(ctxs) && i <= j < |ctxs| && ctxs[i] == ctxs[j]
    ensures Follows(Shown(g, ctxs, j), Shown(g, ctxs, i))
    decreases j
  {
    if i < j {
      assert ctxs[i] <= ctxs[j - 1] <= ctxs[j];
      BlockFollows(g, ctxs, i, j - 1);
      ShowsAgain(g, ctxs[j - 1], Before(g, ctxs, j - 1));
    }
  }

  // ---- what the store records of the rungs ----

  lemma {:induction false} AppendsFresh(g: Setting, ctxs: seq<nat>, n: nat)
    requires n <= |ctxs|
    ensures forall r :: r in Appends(g, ctxs, n) ==> r.key.arm == g.arm && r.key.ctx in ctxs && r.key !in g.done
  {
    if n > 0 { AppendsFresh(g, ctxs, n - 1); }
  }

  lemma LatestSnoc(log: seq<Rec>, r: Rec)
    ensures Latest(log + [r], KeyOf) == Latest(log, KeyOf)[r.key := r]
  {
    assert (log + [r])[..|log|] == log;
  }

  lemma {:induction false} LatestUntouched(log: seq<Rec>, more: seq<Rec>, k: Key)
    requires forall r :: r in more ==> r.key != k
    ensures k in Latest(log + more, KeyOf) <==> k in Latest(log, KeyOf)
    ensures k in Latest(log, KeyOf) ==> Latest(log + more, KeyOf)[k] == Latest(log, KeyOf)[k]
  {
    if more == [] {
      assert log + more == log;
    } else {
      var p := more[..|more| - 1];
      LatestUntouched(log, p, k);
      assert log + more == (log + p) + [more[|more| - 1]];
      LatestSnoc(log + p, more[|more| - 1]);
    }
  }

  /** No later rung has this context. */
  predicate Last(ctxs: seq<nat>, j: nat) {
    j < |ctxs| && (j + 1 < |ctxs| ==> ctxs[j + 1] != ctxs[j])
  }

  /** The last listing of a rung's context. */
  function LastOf(ctxs: seq<nat>, j: nat): (e: nat)
    requires j < |ctxs|
    ensures j <= e && Last(ctxs, e) && ctxs[e] == ctxs[j]
    decreases |ctxs| - j
  {
    if Last(ctxs, j) then j else LastOf(ctxs, j + 1)
  }

  lemma PastLast(ctxs: seq<nat>, e: nat, n: nat)
    requires Sorted(ctxs) && Last(ctxs, e) && e < n < |ctxs|
    ensures ctxs[e] < ctxs[n]
  {
    assert ctxs[e] < ctxs[e + 1] <= ctxs[n];
  }

  lemma LatestNew(log: seq<Rec>, out: seq<Rec>)
    requires |out| == 1
    ensures out[0].key in Latest(log + out, KeyOf) && [Latest(log + out, KeyOf)[out[0].key]] == out
  {
    LatestSnoc(log, out[0]);
    assert out == [out[0]];
  }

  /** Once it is passed, the latest record of a context that was not done is the one its last listing appended. */
  lemma {:induction false} LatestBelow(g: Setting, ctxs: seq<nat>, n: nat, j: nat, store: seq<Rec>)
    requires Sorted(ctxs) && j < n <= |ctxs| && Last(ctxs, j) && Key(g.arm, ctxs[j]) !in g.done
    ensures var k, m := Key(g.arm, ctxs[j]), Latest(store + Appends(g, ctxs, n), KeyOf);
            k in m && [m[k]] == Output(g, ctxs[j], Before(g, ctxs, j))
  {
    var k := Key(g.arm, ctxs[j]);
    var q := n - 1;
    var p, out := Appends(g, ctxs, q), Output(g, ctxs[q], Before(g, ctxs, q));
    assert store + Appends(g, ctxs, n) == (store + p) + out by { Assoc(store, p, out); }
    if q == j {
      LatestNew(store + p, out);
    } else {
      PastLast(ctxs, j, q);
      LatestBelow(g, ctxs, q, j, store);
      LatestUntouched(store + p, out, k);
    }
  }

  /** So it follows what any of its listings showed. */
  lemma LatestFollows(g: Setting, ctxs: seq<nat>, n: nat, j: nat, store: seq<Rec>)
    requires OracleOk(g.o) && Sorted(ctxs) && j < n < |ctxs| && ctxs[j] < ctxs[n] && Key(g.arm, ctxs[j]) !in g.done
    ensures var k, m := Key(g.arm, ctxs[j]), Latest(store + Appends(g, ctxs, n), KeyOf);
            k in m && Follows(m[k].status, Shown(g, ctxs, j))
  {
    var e := LastOf(ctxs, j);
    LastEarlier(ctxs, e, n);
    LatestBelow(g, ctxs, n, e, store);
    BlockFollows(g, ctxs, j, e);
  }

  lemma LastEarlier(ctxs: seq<nat>, e: nat, n: nat)
    requires Sorted(ctxs) && e < |ctxs| && n < |ctxs| && ctxs[e] < ctxs[n]
    ensures e < n
  {}

  // ---- parts of a climb ----

  /** The first contexts alone are climbed alike. */
  lemma {:induction false} SamePart(g: Setting, ctxs: seq<nat>, b: nat, n: nat)
    requires n <= b <= |ctxs|
    ensures Before(g, ctxs[..b], n) == Before(g, ctxs, n) && Appends(g, ctxs[..b], n) == Appends(g, ctxs, n)
  {
    if n > 0 { SamePart(g, ctxs, b, n - 1); }
  }

  /** What the rungs from `b` on append comes last. */
  lemma {:induction false} AppendsSplit(g: Setting, ctxs: seq<nat>, b: nat, n: nat) returns (rest: seq<Rec>)
    requires b <= n <= |ctxs|
    ensures Appends(g, ctxs, n) == Appends(g, ctxs, b) + rest
    ensures forall r :: r in rest ==> exists j :: b <= j < n && r.key == Key(g.arm, ctxs[j])
  {
    if n == b {
      rest := [];
    } else {
      var p := AppendsSplit(g, ctxs, b, n - 1);
      var out := Output(g, ctxs[n - 1], Before(g, ctxs, n - 1));
      rest := p + out;
      Assoc(Appends(g, ctxs, b), p, out);
      forall r | r in rest ensures exists j :: b <= j < n && r.key == Key(g.arm, ctxs[j]) {
        if r in p {
          var j :| b <= j < n - 1 && r.key == Key(g.arm, ctxs[j]);
        } else {
          assert r.key == Key(g.arm, ctxs[n - 1]);
        }
      }
    }
  }

  /** Every first part of what a climb appends is that of some first rungs. */
  lemma {:induction false} AppendsCut(g: Setting, ctxs: seq<nat>, n: nat, k: nat) returns (q: nat)
    requires n <= |ctxs| && k <= |Appends(g, ctxs, n)|
    ensures q <= n && Appends(g, ctxs, n)[..k] == Appends(g, ctxs, q)
  {
    if k == |Appends(g, ctxs, n)| {
      q := n;
    } else {
      q := AppendsCut(g, ctxs, n - 1, k);
    }
  }

  // ---- whole sessions ----

  function SettingOf(p: Plan, o: Oracle, arm: string, log: seq<Rec>): Setting {
    Setting(arm, p.stop, o, Done(log, KeyOf, Failed), Latest(log, KeyOf))
  }

  /** Which rung of an arm appended record `i` of the climb. */
  lemma {:induction false} RungOf(g: Setting, ctxs: seq<nat>, n: nat, i: nat) returns (q: nat)
    requires n <= |ctxs| && i < |Appends(g, ctxs, n)|
    ensures q < n && Appends(g, ctxs, n)[..i] == Appends(g, ctxs, q) && Key(g.arm, ctxs[q]) !in g.done
    ensures Appends(g, ctxs, n)[i].key == Key(g.arm, ctxs[q]) && Appends(g, ctxs, n)[i].status == Shown(g, ctxs, q)
    ensures [Appends(g, ctxs, n)[i]] == Output(g, ctxs[q], Before(g, ctxs, q))
  {
    var p, out := Appends(g, ctxs, n - 1), Output(g, ctxs[n - 1], Before(g, ctxs, n - 1));
    if i < |p| {
      q := RungOf(g, ctxs, n - 1, i);
      TakeLeft(p, out, i);
    } else {
      q := n - 1;
      TakeRight(p, out, i);
      assert p + out[..0] == p;
    }
  }

  /** Which arm appended record `i` of the session, and at which rung. */
  lemma {:induction false} RecordAt(p: Plan, o: Oracle, arms: seq<string>, log: seq<Rec>, i: nat)
    returns (arm: string, q: nat, before: seq<Rec>)
    requires i < |Arms(p, o, arms, Done(log, KeyOf, Failed), Latest(log, KeyOf))|
    ensures ComesFrom(Arms(p, o, arms, Done(log, KeyOf, Failed), Latest(log, KeyOf)), i, SettingOf(p, o, arm, log),
                      p.ctxs, q, before)
  {
    var done, latest := Done(log, KeyOf, Failed), Latest(log, KeyOf);
    var g := SettingOf(p, o, arms[0], log);
    var mine, others := Appends(g, p.ctxs, |p.ctxs|), Arms(p, o, arms[1..], done, latest);
    WholeClimb(g, p.ctxs);
    assert Arms(p, o, arms, done, latest) == mine + others;
    if i < |mine| {
      arm, before := arms[0], [];
      q := FirstArm(g, p.ctxs, others, i);
    } else {
      var rest;
      arm, q, rest := RecordAt(p, o, arms[1..], log, i - |mine|);
      AppendsFresh(g, p.ctxs, |p.ctxs|);
      before := mine + rest;
      LaterArm(mine, others, i, SettingOf(p, o, arm, log), p.ctxs, q, rest);
    }
  }

  /** Record `i` of `s` is what rung `q` appended, after `before` and the rungs below it. */
  ghost predicate ComesFrom(s: seq<Rec>, i: nat, g: Setting, ctxs: seq<nat>, q: nat, before: seq<Rec>) {
    && i < |s| && q < |ctxs| && Key(g.arm, ctxs[q]) !in g.done
    && s[..i] == before + Appends(g, ctxs, q)
    && s[i].key == Key(g.arm, ctxs[q]) && s[i].status == Shown(g, ctxs, q)
    && [s[i]] == Output(g, ctxs[q], Before(g, ctxs, q))
    && forall r :: r in before ==> r.key !in g.done
  }

  lemma FirstArm(g: Setting, ctxs: seq<nat>, others: seq<Rec>, i: nat) returns (q: nat)
    requires i < |Appends(g, ctxs, |ctxs|)|
    ensures ComesFrom(Appends(g, ctxs, |ctxs|) + others, i, g, ctxs, q, [])
  {
    q := RungOf(g, ctxs, |ctxs|, i);
    TakeLeft(Appends(g, ctxs, |ctxs|), others, i);
    assert [] + Appends(g, ctxs, q) == Appends(g, ctxs, q);
  }

  lemma LaterArm(mine: seq<Rec>, others: seq<Rec>, i: nat, g: Setting, ctxs: seq<nat>, q: nat, before: seq<Rec>)
    requires i >= |mine| && ComesFrom(others, i - |mine|, g, ctxs, q, before)
    requires forall r :: r in mine ==> r.key !in g.done
    ensures ComesFrom(mine + others, i, g, ctxs, q, mine + before)
  {
    TakeRight(mine, others, i);
    Assoc(mine, before, Appends(g, ctxs, q));
  }

  // ---- killed sessions ----

  /** A store after any number of kills: each session's appends cut anywhere. */
  function Killed(p: Plan, o: Oracle, kills: seq<nat>): seq<Rec> {
    if kills == [] then []
    else
      var log := Killed(p, o, kills[..|kills| - 1]);
      var s, k := Session(p, o, log), kills[|kills| - 1];
      log + if k <= |s| then s[..k] else s
  }

  /** After a session over any arms, a context that was not done on opening has the record its last listing
      appended. */
  lemma {:induction false} LatestAfterArms(p: Plan, o: Oracle, arms: seq<string>, g: Setting, store: seq<Rec>, j: nat)
    requires Sorted(p.ctxs) && g.o == o && g.stop == p.stop && g.arm in arms
    requires Last(p.ctxs, j) && Key(g.arm, p.ctxs[j]) !in g.done
    ensures var k, m := Key(g.arm, p.ctxs[j]), Latest(store + Arms(p, o, arms, g.done, g.latest), KeyOf);
            k in m && [m[k]] == Output(g, p.ctxs[j], Before(g, p.ctxs, j))
  {
    var k := Key(g.arm, p.ctxs[j]);
    var first := g.(arm := arms[0]);
    var mine, others := Appends(first, p.ctxs, |p.ctxs|), Arms(p, o, arms[1..], g.done, g.latest);
    WholeClimb(first, p.ctxs);
    assert Arms(p, o, arms, g.done, g.latest) == mine + others;
    Assoc(store, mine, others);
    if g.arm in arms[1..] {
      LatestAfterArms(p, o, arms[1..], g, store + mine, j);
    } else {
      LatestBelow(g, p.ctxs, |p.ctxs|, j, store);
      ArmsFresh(p, o, arms[1..], g.done, g.latest);
      LatestUntouched(store + mine, others, k);
    }
  }

  lemma {:induction false} ArmsFresh(p: Plan, o: Oracle, arms: seq<string>, done: set<Key>, latest: map<Key, Rec>)
    ensures forall r :: r in Arms(p, o, arms, done, latest) ==>
              r.key.arm in arms && r.key.ctx in p.ctxs && r.key !in done
  {
    if arms != [] {
      var g := Setting(arms[0], p.stop, o, done, latest);
      WholeClimb(g, p.ctxs);
      AppendsFresh(g, p.ctxs, |p.ctxs|);
      ArmsFresh(p, o, arms[1..], done, latest);
    }
  }
}
