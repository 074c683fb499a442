/** The two rules about gates and attempts are exactly as strong as the order and the stores of the steps allow. */
module CampaignGates {
  import opened Seqs
  import opened Options
  import opened Campaign
  import opened CampaignSafety

  /** In every history, a long step starts only when every gate is saved as done. */
  ghost predicate GatesHold(steps: seq<Step>) {
    forall runs, i, n :: Respected(steps, runs, i, n)
  }

  ghost predicate Respected(steps: seq<Step>, runs: seq<Killed>, i: nat, n: string) {
    var evs := History(steps, runs);
    i < |evs| && evs[i] == Started(n) && IsLong(steps, n) ==> GatesDone(steps, SavedBefore(evs, i))
  }

  /** Everything passes, except that the one named step leaves an item in error. */
  function AllPassBut(bad: string): Oracle {
    (n: string, a: nat) => Outcome(0, if n == bad then 1 else 0)
  }

  function Quiet(bad: string, retries: nat): Invocation {
    Invocation(retries, {}, true, AllPassBut(bad))
  }

  /** The state when step `k` is reached and nothing has failed. */
  ghost predicate Reached(steps: seq<Step>, k: nat, st: State, bad: string)
    requires k <= |steps|
  {
    && (forall n :: n in st ==> exists q :: 0 <= q < k && steps[q].name == n)
    && (forall q :: 0 <= q < k && steps[q].name == bad && steps[q].store ==> bad in st && st[bad] == DoneWithErrors)
  }

  /** Under that oracle every step is closed by its first attempt and blocks nothing, if the named step is a gate. */
  lemma OneAttempt(s: Step, st: State, limit: nat, bad: string)
    requires limit >= 1 && (s.name == bad ==> s.gate)
    ensures var r := Attempts(s, st, 1, limit, AllPassBut(bad));
            && !r.blocked
            && r.st == st[s.name := if s.store && s.name == bad then DoneWithErrors else Done]
            && r.evs[..2] == [Saved(st[s.name := Running]), Started(s.name)]
  {}

  ghost predicate Poised(steps: seq<Step>, k: nat, st: State, m: Mon, bad: string) {
    && DistinctNames(steps) && k <= |steps| && Reached(steps, k, st, bad)
    && (forall s :: s in steps && s.name == bad ==> s.gate)
    && m.saved == st && Between(steps, m, k) && NoStoreNoErrors(steps, st)
  }

  lemma ReachNext(steps: seq<Step>, k: nat, st: State, m: Mon, bad: string)
    requires k < |steps| && Poised(steps, k, st, m, bad)
    ensures var r := Attempts(steps[k], st, 1, Limit(steps[k], m.retries), AllPassBut(bad));
            && !Skips(steps[k], st, {}, true) && !r.blocked && ObserveAll(m, r.evs).retries == m.retries
            && Poised(steps, k + 1, r.st, ObserveAll(m, r.evs), bad)
  {
    var s := steps[k];
    assert s.name !in st;
    var limit := Limit(s, m.retries);
    OneAttempt(s, st, limit, bad);
    AttemptsGood(steps, s, st, 1, limit, AllPassBut(bad), m, false);
    var r := Attempts(s, st, 1, limit, AllPassBut(bad));
    assert AttemptsOk(steps, s, st, r, m, false);
    forall n | n in r.st ensures exists q :: 0 <= q < k + 1 && steps[q].name == n {
      if n == s.name { assert steps[k].name == n; }
    }
  }

  function From(steps: seq<Step>, k: nat, st: State, bad: string, retries: nat): seq<Event>
    requires k <= |steps|
  {
    Steps(steps[k..], st, retries, {}, true, AllPassBut(bad))
  }

  lemma FromNext(steps: seq<Step>, k: nat, st: State, bad: string, retries: nat)
    requires k < |steps| && !Skips(steps[k], st, {}, true)
    ensures var r := Attempts(steps[k], st, 1, Limit(steps[k], retries), AllPassBut(bad));
            !r.blocked ==> From(steps, k, st, bad, retries) == r.evs + From(steps, k + 1, r.st, bad, retries)
  {
    assert steps[k..][0] == steps[k] && steps[k..][1..] == steps[k + 1..];
  }

  /** The campaign reaches step `to`. */
  lemma {:induction false} Reach(steps: seq<Step>, k: nat, to: nat, st: State, m: Mon, bad: string)
    returns (evs: seq<Event>, at: State)
    requires k <= to < |steps| && Poised(steps, k, st, m, bad)
    ensures From(steps, k, st, bad, m.retries) == evs + From(steps, to, at, bad, m.retries)
    ensures Poised(steps, to, at, ObserveAll(m, evs), bad) && ObserveAll(m, evs).retries == m.retries
    decreases |steps| - k
  {
    if k == to {
      evs, at := [], st;
    } else {
      ReachNext(steps, k, st, m, bad);
      FromNext(steps, k, st, bad, m.retries);
      var r := Attempts(steps[k], st, 1, Limit(steps[k], m.retries), AllPassBut(bad));
      var n := ObserveAll(m, r.evs);
      var rest;
      rest, at := Reach(steps, k + 1, to, r.st, n, bad);
      evs := r.evs + rest;
      GoodAppend(steps, m, r.evs, rest, false);
      Assoc(r.evs, rest, From(steps, to, at, bad, m.retries));
    }
  }

  /** One invocation that gets as far as step `to`, and all that has happened by then. */
  lemma RunTo(steps: seq<Step>, to: nat, bad: string, retries: nat)
    returns (runs: seq<Killed>, evs: seq<Event>, st: State)
    requires DistinctNames(steps) && to < |steps| && forall s :: s in steps && s.name == bad ==> s.gate
    ensures History(steps, runs) == [Began(retries)] + (evs + From(steps, to, st, bad, retries))
    ensures ObserveAll(BLANK, [Began(retries)] + evs).retries == retries
    ensures Poised(steps, to, st, ObserveAll(BLANK, [Began(retries)] + evs), bad)
  {
    var m0 := Observe(BLANK, Began(retries));
    evs, st := Reach(steps, 0, to, map[], m0, bad);
    var all := RunEvents(steps, map[], Quiet(bad, retries));
    assert steps[0..] == steps;
    runs := [Killed(Quiet(bad, retries), |all|)];
    Once(steps, runs, all);
    assert ([Began(retries)] + evs)[1..] == evs;
  }

  /** A long step that starts while gate `j` is not saved as done: one listed later, or one whose store
      keeps an item in error. */
  lemma GateSlips(steps: seq<Step>, i: nat, j: nat) returns (runs: seq<Killed>, at: nat)
    requires DistinctNames(steps) && i < |steps| && j < |steps| && !steps[i].gate && steps[j].gate
    requires i < j || steps[j].store
    ensures !Respected(steps, runs, at, steps[i].name)
  {
    var bad, s := steps[j].name, steps[i];
    assert forall x :: x in steps && x.name == bad ==> x == steps[j];
    var evs, st;
    runs, evs, st := RunTo(steps, i, bad, 0);
    var tail := From(steps, i, st, bad, 0);
    TailStarts(steps, i, st, ObserveAll(BLANK, [Began(0)] + evs), bad);
    at := |evs| + 2;
    StateAtStart(steps, History(steps, runs), evs, tail, st[s.name := Running]);
    GateOpen(steps, i, j, st);
    NotRespected(steps, runs, at, s);
  }

  lemma NotRespected(steps: seq<Step>, runs: seq<Killed>, at: nat, s: Step)
    requires s in steps && !s.gate && at < |History(steps, runs)| && History(steps, runs)[at] == Started(s.name)
    requires !GatesDone(steps, SavedBefore(History(steps, runs), at))
    ensures !Respected(steps, runs, at, s.name)
  {}

  /** A step that is reached saves itself as running and starts. */
  lemma TailStarts(steps: seq<Step>, i: nat, st: State, m: Mon, bad: string)
    requires i < |steps| && Poised(steps, i, st, m, bad)
    ensures var tail := From(steps, i, st, bad, m.retries);
            |tail| >= 2 && tail[0] == Saved(st[steps[i].name := Running]) && tail[1] == Started(steps[i].name)
  {
    ReachNext(steps, i, st, m, bad);
    FromNext(steps, i, st, bad, m.retries);
    OneAttempt(steps[i], st, Limit(steps[i], m.retries), bad);
    var r := Attempts(steps[i], st, 1, Limit(steps[i], m.retries), AllPassBut(bad));
    assert r.evs[0] == r.evs[..2][0] && r.evs[1] == r.evs[..2][1];
  }

  /** The state on disk before the second event of `tail` is the one its first event saved. */
  lemma StateAtStart(steps: seq<Step>, all: seq<Event>, evs: seq<Event>, tail: seq<Event>, st: State)
    requires all == [Began(0)] + (evs + tail) && |tail| >= 2 && tail[0] == Saved(st)
    ensures |all| > |evs| + 2 && all[|evs| + 2] == tail[1] && SavedBefore(all, |evs| + 2) == st
  {
    var pre := [Began(0)] + evs + [tail[0]];
    assert all[..|evs| + 2] == pre;
    GoodAppend(steps, BLANK, [Began(0)] + evs, [tail[0]], false);
    assert [tail[0]][1..] == [];
  }

  lemma Once(steps: seq<Step>, runs: seq<Killed>, all: seq<Event>)
    requires |runs| == 1 && all == RunEvents(steps, map[], runs[0].inv) && runs[0].cut == |all|
    ensures History(steps, runs) == all
  {
    assert runs[..0] == [];
    assert History(steps, runs[..0]) == [];
    assert all[..|all|] == all;
  }

  lemma GateOpen(steps: seq<Step>, i: nat, j: nat, st: State)
    requires DistinctNames(steps) && i < |steps| && j < |steps| && !steps[i].gate && steps[j].gate
    requires Reached(steps, i, st, steps[j].name) && (i < j || steps[j].store)
    ensures !GatesDone(steps, st[steps[i].name := Running])
  {
    var g := steps[j];
    assert g in steps && i != j;
    assert g.name != steps[i].name;
    if g.name in st {
      var q :| 0 <= q < i && steps[q].name == g.name;
      assert q == j;
    }
  }

  /** Exactly when the gate rule holds over all histories: every gate stands before every long step and
      has no store to leave items in error. */
  lemma GatesHoldIff(steps: seq<Step>)
    requires DistinctNames(steps)
    ensures GatesHold(steps) <==> GatesFirst(steps)
  {
    if GatesFirst(steps) {
      forall runs, i: nat, n ensures Respected(steps, runs, i, n) {
        var evs := History(steps, runs);
        if i < |evs| && evs[i] == Started(n) && IsLong(steps, n) {
          StartsBehindGates(steps, runs, i, n);
        }
      }
    } else {
      var i, j :| 0 <= i < |steps| && 0 <= j < |steps| && !steps[i].gate && steps[j].gate
        && !(j < i && !steps[j].store);
      var runs, at := GateSlips(steps, i, j);
    }
  }

  // ---- attempts ----

  /** In every history, a step is first saved as done with errors only after `1 + retries` attempts. */
  ghost predicate AttemptsHold(steps: seq<Step>) {
    forall runs, i, n :: AllTried(steps, runs, i, n)
  }

  ghost predicate AllTried(steps: seq<Step>, runs: seq<Killed>, i: nat, n: string) {
    var evs := History(steps, runs);
    i < |evs| && evs[i].Saved? && n in evs[i].st && evs[i].st[n] == DoneWithErrors
      && !Finished(SavedBefore(evs, i), n) ==>
      var m := ObserveAll(BLANK, evs[..i]);
      m.step == Some(n) && m.tries == 1 + m.retries && m.last.rc == 0 && m.last.errors > 0
  }

  /** A gate with a store and an item in error: its only attempt, of the two allowed, settles it as done with
      errors. */
  lemma GateSettles(s: Step, st: State, m: Mon)
    requires s.gate && s.store && m.saved == st && m.step != Some(s.name)
    ensures var r := Attempts(s, st, 1, 2, AllPassBut(s.name));
            && |r.evs| == 5 && r.evs[4] == Saved(st[s.name := DoneWithErrors])
            && ObserveAll(m, r.evs[..4]) == Mon(st[s.name := Failed], Some(s.name), 1, Outcome(0, 1), m.retries)
  {
    var r := Attempts(s, st, 1, 2, AllPassBut(s.name));
    var failed := st[s.name := Failed];
    assert r.evs == [Saved(st[s.name := Running]), Started(s.name), Returned(s.name, Outcome(0, 1)), Saved(failed),
                     Saved(st[s.name := DoneWithErrors])];
    assert r.evs[..4] == [r.evs[0], r.evs[1], r.evs[2], r.evs[3]];
    ObserveFour(m, r.evs[0], r.evs[1], r.evs[2], r.evs[3]);
  }

  lemma ObserveFour(m: Mon, a: Event, b: Event, c: Event, d: Event)
    ensures ObserveAll(m, [a, b, c, d]) == Observe(Observe(Observe(Observe(m, a), b), c), d)
  {
    assert [a, b, c, d][1..] == [b, c, d] && [b, c, d][1..] == [c, d] && [c, d][1..] == [d] && [d][1..] == [];
    assert ObserveAll(Observe(Observe(m, a), b), [c, d]) == ObserveAll(Observe(Observe(Observe(m, a), b), c), [d]);
  }

  /** Allowed two attempts, such a gate gets one. */
  lemma GateTriedOnce(steps: seq<Step>, j: nat) returns (runs: seq<Killed>, at: nat)
    requires DistinctNames(steps) && j < |steps| && steps[j].gate && steps[j].store
    ensures !AllTried(steps, runs, at, steps[j].name)
  {
    var n := steps[j].name;
    assert forall x :: x in steps && x.name == n ==> x == steps[j];
    var evs, st;
    runs, evs, st := RunTo(steps, j, n, 1);
    var more := GateRuns(steps, j, st, ObserveAll(BLANK, [Began(1)] + evs));
    at := CutInside(History(steps, runs), [Began(1)], evs, From(steps, j, st, n, 1), more);
    GoodAppend(steps, BLANK, [Began(1)] + evs, more, false);
    SettledEarly(steps, runs, at, st, n);
  }

  /** Reached, it leaves the observer with one attempt seen, and the next event settles it. */
  lemma GateRuns(steps: seq<Step>, j: nat, st: State, m: Mon) returns (more: seq<Event>)
    requires j < |steps| && steps[j].gate && steps[j].store && m.retries == 1 && Poised(steps, j, st, m, steps[j].name)
    ensures var n, tail := steps[j].name, From(steps, j, st, steps[j].name, 1);
            && |tail| > |more| && tail[..|more|] == more && tail[|more|] == Saved(st[n := DoneWithErrors])
            && ObserveAll(m, more) == Mon(st[n := Failed], Some(n), 1, Outcome(0, 1), 1)
  {
    var s := steps[j];
    ReachNext(steps, j, st, m, s.name);
    FromNext(steps, j, st, s.name, 1);
    assert m.step != Some(s.name);
    GateSettles(s, st, m);
    more := Attempts(s, st, 1, 2, AllPassBut(s.name)).evs[..4];
  }

  lemma SettledEarly(steps: seq<Step>, runs: seq<Killed>, at: nat, st: State, n: string)
    requires at < |History(steps, runs)| && History(steps, runs)[at] == Saved(st[n := DoneWithErrors])
    requires ObserveAll(BLANK, History(steps, runs)[..at]) == Mon(st[n := Failed], Some(n), 1, Outcome(0, 1), 1)
    ensures !AllTried(steps, runs, at, n)
  {}

  lemma CutInside(all: seq<Event>, a: seq<Event>, b: seq<Event>, c: seq<Event>, more: seq<Event>) returns (at: nat)
    requires all == a + (b + c) && |c| > |more| && c[..|more|] == more
    ensures at < |all| && all[..at] == (a + b) + more && all[at] == c[|more|]
  {
    at := |a| + |b| + |more|;
    assert all == (a + b) + c;
  }

  /** Exactly when every step gets all its attempts before its errors are accepted: no gate has a store. */
  lemma AttemptsHoldIff(steps: seq<Step>)
    requires DistinctNames(steps)
    ensures AttemptsHold(steps) <==> forall s :: s in steps && s.gate ==> !s.store
  {
    if forall s :: s in steps && s.gate ==> !s.store {
      forall runs, i: nat, n ensures AllTried(steps, runs, i, n) {
        var evs := History(steps, runs);
        if i < |evs| && evs[i].Saved? && n in evs[i].st && evs[i].st[n] == DoneWithErrors
          && !Finished(SavedBefore(evs, i), n) {
          ErrorsAfterAllAttempts(steps, runs, i, n);
          OnlyStores(steps, runs, i, n);
        }
      }
    } else {
      var s :| s in steps && s.gate && s.store;
      var j :| 0 <= j < |steps| && steps[j] == s;
      var runs, at := GateTriedOnce(steps, j);
    }
  }

  lemma OnlyStores(steps: seq<Step>, runs: seq<Killed>, i: nat, n: string)
    requires DistinctNames(steps) && i < |History(steps, runs)| && forall s :: s in steps && s.gate ==> !s.store
    requires var e := History(steps, runs)[i]; e.Saved? && n in e.st && e.st[n] == DoneWithErrors
    ensures !IsGate(steps, n)
  {
    HistoryGood(steps, runs, false);
    GoodAt(steps, History(steps, runs), false, i);
    var s :| s in steps && s.name == n && s.store;
    OneStepPerName(steps, s);
  }
}
