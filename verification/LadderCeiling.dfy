/** What the ceiling rule guarantees: a rung is launched exactly while fewer consecutive ceilings than the stop
    rule asks for stand below it, also after kills and whatever the latency verdicts. */
module LadderCeiling {
  import opened Seqs
  import opened Options
  import opened KeyedLog
  import opened Ladder
  import opened LadderRungs

  // ---- standing ceilings ----

  /** Consecutive ceilings after one more rung: a skip counts for nothing, anything else ends the run. */
  function Count(c: nat, st: Status): nat {
    if Ceiling(st) then c + 1 else if st == Skipped then c else 0
  }

  function Standing(sts: seq<Status>): nat {
    if sts == [] then 0 else Count(Standing(sts[..|sts| - 1]), sts[|sts| - 1])
  }

  function ShownTo(g: Setting, ctxs: seq<nat>, n: nat): (sts: seq<Status>)
    requires n <= |ctxs|
    ensures |sts| == n && forall j :: 0 <= j < n ==> sts[j] == Shown(g, ctxs, j)
  {
    seq(n, j requires 0 <= j < n => Shown(g, ctxs, j))
  }

  /** No key that counts as done has a crash as its latest record. */
  ghost predicate NoDoneErrors(done: set<Key>, latest: map<Key, Rec>) {
    forall k :: k in done && k in latest ==> latest[k].status != Error
  }

  ghost predicate SettingOk(g: Setting) {
    OracleOk(g.o) && NoDoneErrors(g.done, g.latest)
  }

  /** The loop's counter is the number of ceilings standing below the rung. */
  lemma {:induction false} CounterIsStanding(g: Setting, ctxs: seq<nat>, n: nat)
    requires SettingOk(g) && n <= |ctxs|
    ensures Before(g, ctxs, n).ooms == Standing(ShownTo(g, ctxs, n))
  {
    if n > 0 {
      CounterIsStanding(g, ctxs, n - 1);
      assert ShownTo(g, ctxs, n)[..n - 1] == ShownTo(g, ctxs, n - 1);
      CounterStep(g, ctxs[n - 1], Before(g, ctxs, n - 1));
    }
  }

  lemma CounterStep(g: Setting, c: nat, s: Live)
    requires SettingOk(g)
    ensures Next(g, c, s).ooms == Count(s.ooms, Shows(g, c, s))
  {
    assert RawOk(g.o(Key(g.arm, c)));
  }

  /** A rung that is not done is launched exactly when fewer ceilings than the stop rule asks for stand below
      it. */
  lemma LaunchedIff(g: Setting, ctxs: seq<nat>, n: nat)
    requires SettingOk(g) && n < |ctxs| && Key(g.arm, ctxs[n]) !in g.done
    ensures Shown(g, ctxs, n) != Skipped <==> Standing(ShownTo(g, ctxs, n)) < g.stop
  {
    CounterIsStanding(g, ctxs, n);
    assert RawOk(g.o(Key(g.arm, ctxs[n])));
  }

  /** Statuses of an arm's contexts in the views of a store; a context without a record shows nothing. */
  function Recorded(latest: map<Key, Rec>, arm: string, ctxs: seq<nat>): (sts: seq<Status>)
    ensures |sts| == |ctxs|
    ensures forall j :: 0 <= j < |ctxs| ==>
      sts[j] == if Key(arm, ctxs[j]) in latest then latest[Key(arm, ctxs[j])].status else Skipped
  {
    seq(|ctxs|, j requires 0 <= j < |ctxs| =>
      if Key(arm, ctxs[j]) in latest then latest[Key(arm, ctxs[j])].status else Skipped)
  }

  lemma {:induction false} StandingFollows(later: seq<Status>, earlier: seq<Status>)
    requires |later| == |earlier| && forall j :: 0 <= j < |later| ==> Follows(later[j], earlier[j])
    ensures Standing(later) <= Standing(earlier)
  {
    if later != [] {
      StandingFollows(later[..|later| - 1], earlier[..|later| - 1]);
    }
  }

  /** The contexts below `c`, of a sorted list. */
  function Lower(ctxs: seq<nat>, c: nat): (ls: seq<nat>)
    ensures |ls| <= |ctxs| && ls == ctxs[..|ls|]
    ensures forall j :: 0 <= j < |ls| ==> ls[j] < c
    ensures |ls| < |ctxs| ==> ctxs[|ls|] >= c
  {
    if ctxs == [] || ctxs[0] >= c then [] else [ctxs[0]] + Lower(ctxs[1..], c)
  }

  /** One climb: at a launched rung, the ceilings standing in the store's records of the lower contexts are
      fewer than the stop rule asks for. `store` holds what was there on opening and what earlier arms added. */
  lemma RungBelowCeiling(g: Setting, ctxs: seq<nat>, n: nat, store: seq<Rec>)
    requires SettingOk(g) && Sorted(ctxs) && n < |ctxs|
    requires Key(g.arm, ctxs[n]) !in g.done && Shown(g, ctxs, n) != Skipped
    requires forall k :: k in g.done ==>
               k in g.latest && k in Latest(store, KeyOf) && Latest(store, KeyOf)[k] == g.latest[k]
    ensures Standing(Recorded(Latest(store + Appends(g, ctxs, n), KeyOf), g.arm, Lower(ctxs, ctxs[n]))) < g.stop
  {
    var low := Lower(ctxs, ctxs[n]);
    var q := |low|;
    assert q <= n;
    assert ctxs[q] == ctxs[n];
    BlockFollows(g, ctxs, q, n);
    LaunchedIff(g, ctxs, q);
    var m := Latest(store + Appends(g, ctxs, n), KeyOf);
    var recorded, shown := Recorded(m, g.arm, low), ShownTo(g, ctxs, q);
    forall j | 0 <= j < q ensures Follows(recorded[j], shown[j]) {
      var k := Key(g.arm, ctxs[j]);
      if k in g.done {
        AppendsFresh(g, ctxs, n);
        LatestUntouched(store, Appends(g, ctxs, n), k);
      } else {
        LatestFollows(g, ctxs, n, j, store);
      }
    }
    StandingFollows(recorded, shown);
  }

  ghost predicate NoErrorAfterSuccess(log: seq<Rec>) {
    && (forall i :: 0 <= i < |log| && log[i].status == Error ==> log[i].error)
    && forall i, j :: 0 <= i < j < |log| && log[i].key == log[j].key && !log[i].error ==> log[j].status != Error
  }

  /** Two records a session appends for one key: a crash neither follows nor precedes a skip. */
  lemma SameKeyTwice(p: Plan, o: Oracle, log: seq<Rec>, i: nat, j: nat)
    requires OracleOk(o) && Sorted(p.ctxs)
    requires var s := Session(p, o, log); i < |s| && j < |s| && s[i].key == s[j].key && !s[i].error
    ensures Session(p, o, log)[j].status != Error
  {
    var s := Session(p, o, log);
    var a, m, _ := RecordAt(p, o, p.arms, log, i);
    var b, n, _ := RecordAt(p, o, p.arms, log, j);
    var g := SettingOf(p, o, a, log);
    assert a == b && RawOk(o(s[i].key));
    if m <= n { BlockFollows(g, p.ctxs, m, n); } else { BlockFollows(g, p.ctxs, n, m); }
  }

  lemma SessionKeepsErrors(p: Plan, o: Oracle, log: seq<Rec>, k: nat)
    requires OracleOk(o) && Sorted(p.ctxs) && NoErrorAfterSuccess(log) && k <= |Session(p, o, log)|
    ensures NoErrorAfterSuccess(log + Session(p, o, log)[..k])
  {
    var s := Session(p, o, log);
    var w := log + s[..k];
    forall i | 0 <= i < |w| && w[i].status == Error ensures w[i].error {
      if i >= |log| {
        var arm, q, _ := RecordAt(p, o, p.arms, log, i - |log|);
        assert RawOk(o(Key(arm, p.ctxs[q])));
      }
    }
    forall i, j | 0 <= i < j < |w| && w[i].key == w[j].key && !w[i].error ensures w[j].status != Error {
      if i >= |log| {
        SameKeyTwice(p, o, log, i - |log|, j - |log|);
      } else if j >= |log| {
        var _, _, _ := RecordAt(p, o, p.arms, log, j - |log|);
        DoneHas(log, KeyOf, Failed, w[i].key);
      }
    }
  }

  lemma {:induction false} KilledKeepsErrors(p: Plan, o: Oracle, kills: seq<nat>)
    requires OracleOk(o) && Sorted(p.ctxs)
    ensures NoErrorAfterSuccess(Killed(p, o, kills))
  {
    if kills != [] {
      var log, k := Killed(p, o, kills[..|kills| - 1]), kills[|kills| - 1];
      KilledKeepsErrors(p, o, kills[..|kills| - 1]);
      var s := Session(p, o, log);
      assert s[..|s|] == s;
      SessionKeepsErrors(p, o, log, if k <= |s| then k else |s|);
    }
  }

  lemma DoneIsLatest(log: seq<Rec>, k: Key)
    requires NoErrorAfterSuccess(log) && k in Done(log, KeyOf, Failed)
    ensures k in Latest(log, KeyOf) && Latest(log, KeyOf)[k].status != Error
  {
    DoneHas(log, KeyOf, Failed, k);
    LatestIsLast(log, KeyOf, k);
    var i :| 0 <= i < |log| && !Failed(log[i]) && KeyOf(log[i]) == Some(k);
    var l: nat :| IsLast(log, KeyOf, k, l) && Latest(log, KeyOf)[k] == log[l];
    assert KeyOf(log[i]) == Some(k) && i <= l;
    assert log[i].key == log[l].key;
  }

  /** What a session opens with stays as it is while other arms append. */
  lemma OpenedWith(p: Plan, o: Oracle, arm: string, log: seq<Rec>, before: seq<Rec>)
    requires OracleOk(o) && NoErrorAfterSuccess(log) && forall r :: r in before ==> r.key !in Done(log, KeyOf, Failed)
    ensures var g := SettingOf(p, o, arm, log);
            && SettingOk(g)
            && forall k :: k in g.done ==>
                 k in g.latest && k in Latest(log + before, KeyOf) && Latest(log + before, KeyOf)[k] == g.latest[k]
  {
    forall k | k in Done(log, KeyOf, Failed)
      ensures k in Latest(log, KeyOf) && Latest(log, KeyOf)[k].status != Error
      ensures k in Latest(log + before, KeyOf) && Latest(log + before, KeyOf)[k] == Latest(log, KeyOf)[k]
    {
      DoneIsLatest(log, k);
      LatestUntouched(log, before, k);
    }
  }

  /** After any kills, for every oracle: whenever a session launches a point, fewer consecutive ceilings than
      the stop rule asks for stand in the store's latest records of the arm's lower contexts. */
  lemma NeverAboveCeiling(p: Plan, o: Oracle, kills: seq<nat>, i: nat)
    requires OracleOk(o) && Sorted(p.ctxs)
    requires var s := Session(p, o, Killed(p, o, kills)); i < |s| && s[i].status != Skipped
    ensures var log := Killed(p, o, kills);
            var s := Session(p, o, log);
            var k := s[i].key;
            Standing(Recorded(Latest(log + s[..i], KeyOf), k.arm, Lower(p.ctxs, k.ctx))) < p.stop
  {
    var log := Killed(p, o, kills);
    var s := Session(p, o, log);
    KilledKeepsErrors(p, o, kills);
    var arm, q, before := RecordAt(p, o, p.arms, log, i);
    var g := SettingOf(p, o, arm, log);
    OpenedWith(p, o, arm, log, before);
    RungBelowCeiling(g, p.ctxs, q, log + before);
    Assoc(log, before, Appends(g, p.ctxs, q));
  }
}
