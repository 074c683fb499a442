/** What holds of every campaign over any number of invocations, each killed anywhere. */
module CampaignSafety {
  import opened Options
  import opened Campaign

  // ---- watching the events ----

  /** What an observer of the events knows: the state on disk, the step last started in this invocation
      with how often and how it returned, and the invocation's retry limit. */
  datatype Mon = Mon(saved: State, step: Option<string>, tries: nat, last: Outcome, retries: nat)

  const BLANK := Mon(map[], None, 0, Outcome(0, 0), 0)

  function Observe(m: Mon, e: Event): Mon {
    match e
    case Began(retries) => Mon(m.saved, None, 0, Outcome(0, 0), retries)
    case Saved(st) => m.(saved := st)
    case Started(n) => if m.step == Some(n) then m else m.(step := Some(n), tries := 0)
    case Returned(_, out) => m.(tries := m.tries + 1, last := out)
  }

  function ObserveAll(m: Mon, evs: seq<Event>): Mon
    decreases |evs|
  {
    if evs == [] then m else ObserveAll(Observe(m, evs[0]), evs[1..])
  }

  ghost predicate IsGate(steps: seq<Step>, n: string) {
    exists s :: s in steps && s.name == n && s.gate
  }

  ghost predicate IsLong(steps: seq<Step>, n: string) {
    exists s :: s in steps && s.name == n && !s.gate
  }

  ghost predicate HasStore(steps: seq<Step>, n: string) {
    exists s :: s in steps && s.name == n && s.store
  }

  ghost predicate GatesDone(steps: seq<Step>, st: State) {
    forall s :: s in steps && s.gate ==> s.name in st && st[s.name] == Done
  }

  /** A long step starts only when every gate's saved status is done. */
  ghost predicate GateAllowed(steps: seq<Step>, m: Mon, e: Event) {
    e.Started? && IsLong(steps, e.name) ==> GatesDone(steps, m.saved)
  }

  /** How often a step may be tried: a gate ends at its first failure. */
  ghost function Tries(steps: seq<Step>, n: string, retries: nat): nat {
    if IsGate(steps, n) then 1 else 1 + retries
  }

  /** A step is newly saved as done with errors only when the invocation has just seen it fail as often as it may be
      tried, the last time exiting cleanly with items still in error. */
  ghost predicate ErrorsEarned(steps: seq<Step>, m: Mon, st: State) {
    forall n :: n in st && st[n] == DoneWithErrors && !Finished(m.saved, n) ==>
      m.step == Some(n) && m.tries == Tries(steps, n, m.retries) && m.last.rc == 0 && m.last.errors > 0
  }

  ghost predicate KeepsFinished(before: State, st: State) {
    forall n :: Finished(before, n) ==> n in st && st[n] == before[n]
  }

  ghost predicate NoStoreNoErrors(steps: seq<Step>, st: State) {
    forall n :: n in st && st[n] == DoneWithErrors ==> HasStore(steps, n)
  }

  ghost predicate Allowed(steps: seq<Step>, m: Mon, e: Event) {
    match e
    case Saved(st) => KeepsFinished(m.saved, st) && ErrorsEarned(steps, m, st) && NoStoreNoErrors(steps, st)
    case Started(n) => !Finished(m.saved, n)
    case _ => true
  }

  /** Every event is allowed; with `gated`, every start respects the gates. */
  ghost predicate Good(steps: seq<Step>, m: Mon, evs: seq<Event>, gated: bool)
    decreases |evs|
  {
    evs == [] ||
    (Allowed(steps, m, evs[0]) && (gated ==> GateAllowed(steps, m, evs[0]))
     && Good(steps, Observe(m, evs[0]), evs[1..], gated))
  }

  lemma {:induction false} GoodAppend(steps: seq<Step>, m: Mon, a: seq<Event>, b: seq<Event>, gated: bool)
    ensures ObserveAll(m, a + b) == ObserveAll(ObserveAll(m, a), b)
    ensures Good(steps, m, a + b, gated) <==> Good(steps, m, a, gated) && Good(steps, ObserveAll(m, a), b, gated)
    decreases |a|
  {
    if a == [] {
      assert a + b == b;
    } else {
      assert (a + b)[0] == a[0] && (a + b)[1..] == a[1..] + b;
      GoodAppend(steps, Observe(m, a[0]), a[1..], b, gated);
    }
  }

  // ---- one step ----

  ghost predicate DistinctNames(steps: seq<Step>) {
    forall i, j :: 0 <= i < j < |steps| ==> steps[i].name != steps[j].name
  }

  lemma OneStepPerName(steps: seq<Step>, s: Step)
    requires DistinctNames(steps) && s in steps
    ensures IsGate(steps, s.name) <==> s.gate
    ensures IsLong(steps, s.name) <==> !s.gate
    ensures HasStore(steps, s.name) <==> s.store
  {
    forall x | x in steps && x.name == s.name ensures x == s {
      var i :| 0 <= i < |steps| && steps[i] == x;
      var j :| 0 <= j < |steps| && steps[j] == s;
      assert i == j;
    }
  }

  ghost predicate Others(a: State, b: State, n: string) {
    forall x :: x != n ==> (x in a <==> x in b) && (x in a ==> a[x] == b[x])
  }

  /** The observer as attempt `a` of step `s` is about to be saved. */
  ghost predicate AtAttempt(m: Mon, s: Step, st: State, a: nat) {
    m.saved == st && a >= 1 && (if m.step == Some(s.name) then m.tries == a - 1 else a == 1)
  }

  /** From the first save of an attempt to its return. */
  lemma AttemptGood(steps: seq<Step>, s: Step, st: State, a: nat, out: Outcome, m: Mon, gated: bool)
    requires DistinctNames(steps) && s in steps && AtAttempt(m, s, st, a)
    requires !Finished(st, s.name) && NoStoreNoErrors(steps, st)
    requires gated && !s.gate ==> GatesDone(steps, st)
    ensures var run := [Saved(st[s.name := Running]), Started(s.name), Returned(s.name, out)];
            && Good(steps, m, run, gated)
            && ObserveAll(m, run) == Mon(st[s.name := Running], Some(s.name), a, out, m.retries)
  {
    OneStepPerName(steps, s);
    var running := st[s.name := Running];
    var run := [Saved(running), Started(s.name), Returned(s.name, out)];
    var m1 := Observe(m, run[0]);
    var m2 := Observe(m1, run[1]);
    var m3 := Observe(m2, run[2]);
    assert run[1..] == [Started(s.name), Returned(s.name, out)] && run[1..][1..] == [Returned(s.name, out)];
    assert m3 == Mon(running, Some(s.name), a, out, m.retries);
    assert ObserveAll(m2, [Returned(s.name, out)]) == ObserveAll(m3, []);
    assert ObserveAll(m, run) == ObserveAll(m1, run[1..]) == ObserveAll(m2, run[1..][1..]);
    assert Allowed(steps, m, run[0]);
    if gated && !s.gate {
      forall g | g in steps && g.gate ensures g.name in running && running[g.name] == Done {
        OneStepPerName(steps, g);
      }
    }
    assert GateAllowed(steps, m, run[0]) && GateAllowed(steps, m2, run[2]);
    assert [Returned(s.name, out)][1..] == [];
    assert Good(steps, m2, [Returned(s.name, out)], gated);
  }

  /** Saving a step as failed, or closing it as done or done with errors. */
  lemma SaveGood(steps: seq<Step>, s: Step, m: Mon, status: Status, gated: bool)
    requires DistinctNames(steps) && s in steps && NoStoreNoErrors(steps, m.saved)
    requires s.name in m.saved && !Finished(m.saved, s.name)
    requires status == DoneWithErrors ==>
      s.store && m.step == Some(s.name) && m.tries == Tries(steps, s.name, m.retries) && m.last.rc == 0
        && m.last.errors > 0
    ensures Good(steps, m, [Saved(m.saved[s.name := status])], gated)
    ensures ObserveAll(m, [Saved(m.saved[s.name := status])]) == m.(saved := m.saved[s.name := status])
  {
    OneStepPerName(steps, s);
    var e := Saved(m.saved[s.name := status]);
    assert [e][1..] == [];
    assert Allowed(steps, m, e);
    assert Good(steps, Observe(m, e), [], gated);
  }

  ghost predicate StepEnds(s: Step, st: State, r: StepRun) {
    && Others(st, r.st, s.name) && s.name in r.st && r.st[s.name] in {Done, DoneWithErrors, Failed}
    && (r.blocked <==> s.gate && r.st[s.name] == Failed)
    && (r.st[s.name] == DoneWithErrors ==> s.store)
  }

  /** From the first save of a failing attempt to its failure being saved. */
  lemma FailureGood(steps: seq<Step>, s: Step, st: State, a: nat, out: Outcome, m: Mon, gated: bool, status: Status)
    requires DistinctNames(steps) && s in steps && AtAttempt(m, s, st, a) && status in {Done, Failed}
    requires !Finished(st, s.name) && NoStoreNoErrors(steps, st)
    requires gated && !s.gate ==> GatesDone(steps, st)
    ensures var evs := [Saved(st[s.name := Running]), Started(s.name), Returned(s.name, out)]
            + [Saved(st[s.name := status])];
            && Good(steps, m, evs, gated) && NoStoreNoErrors(steps, st[s.name := status])
            && ObserveAll(m, evs) == Mon(st[s.name := status], Some(s.name), a, out, m.retries)
  {
    var running := st[s.name := Running];
    var run := [Saved(running), Started(s.name), Returned(s.name, out)];
    AttemptGood(steps, s, st, a, out, m, gated);
    assert running[s.name := status] == st[s.name := status];
    SaveGood(steps, s, Mon(running, Some(s.name), a, out, m.retries), status, gated);
    GoodAppend(steps, m, run, [Saved(st[s.name := status])], gated);
  }

  lemma GatesStay(steps: seq<Step>, s: Step, st: State, status: Status)
    requires DistinctNames(steps) && s in steps && !s.gate && GatesDone(steps, st)
    ensures GatesDone(steps, st[s.name := status])
  {
    forall g | g in steps && g.gate ensures g.name in st[s.name := status] && st[s.name := status][g.name] == Done {
      OneStepPerName(steps, g);
    }
  }

  ghost predicate AttemptsOk(steps: seq<Step>, s: Step, st: State, r: StepRun, m: Mon, gated: bool) {
    && Good(steps, m, r.evs, gated) && StepEnds(s, st, r) && NoStoreNoErrors(steps, r.st)
    && var n := ObserveAll(m, r.evs); n.saved == r.st && n.step == Some(s.name) && n.retries == m.retries
  }

  /** The last failing attempt: its failure is saved, then the step is settled. */
  lemma LastGood(steps: seq<Step>, s: Step, st: State, a: nat, limit: nat, o: Oracle, m: Mon, gated: bool)
    requires DistinctNames(steps) && s in steps && 1 <= a <= limit == Limit(s, m.retries) && AtAttempt(m, s, st, a)
    requires !Finished(st, s.name) && NoStoreNoErrors(steps, st)
    requires gated && !s.gate ==> GatesDone(steps, st)
    requires !Passed(s, o(s.name, a)) && if s.gate then a == 1 else a == limit
    ensures AttemptsOk(steps, s, st, Attempts(s, st, a, limit, o), m, gated)
  {
    var out, failed := o(s.name, a), st[s.name := Failed];
    var evs := [Saved(st[s.name := Running]), Started(s.name), Returned(s.name, out)] + [Saved(failed)];
    FailureGood(steps, s, st, a, out, m, gated, Failed);
    OneStepPerName(steps, s);
    var status := if s.store && out.rc == 0 then DoneWithErrors else Failed;
    assert failed[s.name := status] == st[s.name := status];
    SaveGood(steps, s, Mon(failed, Some(s.name), a, out, m.retries), status, gated);
    GoodAppend(steps, m, evs, [Saved(st[s.name := status])], gated);
    assert Attempts(s, st, a, limit, o).evs == evs + [Saved(st[s.name := status])];
  }

  /** A failing attempt that is not the last, followed by allowed attempts. */
  lemma RetryGood(steps: seq<Step>, s: Step, st: State, a: nat, limit: nat, o: Oracle, m: Mon, gated: bool)
    requires DistinctNames(steps) && s in steps && 1 <= a < limit == Limit(s, m.retries) && AtAttempt(m, s, st, a)
    requires !Finished(st, s.name) && NoStoreNoErrors(steps, st)
    requires gated && !s.gate ==> GatesDone(steps, st)
    requires !Passed(s, o(s.name, a)) && !s.gate
    requires AttemptsOk(steps, s, st[s.name := Failed], Attempts(s, st[s.name := Failed], a + 1, limit, o),
                        Mon(st[s.name := Failed], Some(s.name), a, o(s.name, a), m.retries), gated)
    ensures AttemptsOk(steps, s, st, Attempts(s, st, a, limit, o), m, gated)
  {
    var out, failed := o(s.name, a), st[s.name := Failed];
    var evs := [Saved(st[s.name := Running]), Started(s.name), Returned(s.name, out)] + [Saved(failed)];
    FailureGood(steps, s, st, a, out, m, gated, Failed);
    var rest := Attempts(s, failed, a + 1, limit, o);
    GoodAppend(steps, m, evs, rest.evs, gated);
    assert Attempts(s, st, a, limit, o) == StepRun(evs + rest.evs, rest.st, rest.blocked);
  }

  /** All the attempts of a step are allowed, and leave the observer with the step's final state. */
  lemma {:induction false} AttemptsGood(steps: seq<Step>, s: Step, st: State, a: nat, limit: nat, o: Oracle, m: Mon,
                                        gated: bool)
    requires DistinctNames(steps) && s in steps && 1 <= a <= limit == Limit(s, m.retries) && AtAttempt(m, s, st, a)
    requires s.gate ==> a == 1
    requires !Finished(st, s.name) && NoStoreNoErrors(steps, st)
    requires gated && !s.gate ==> GatesDone(steps, st)
    ensures AttemptsOk(steps, s, st, Attempts(s, st, a, limit, o), m, gated)
    decreases limit - a
  {
    var out, failed := o(s.name, a), st[s.name := Failed];
    if Passed(s, out) {
      FailureGood(steps, s, st, a, out, m, gated, Done);
    } else if s.gate || a == limit {
      LastGood(steps, s, st, a, limit, o, m, gated);
    } else {
      FailureGood(steps, s, st, a, out, m, gated, Failed);
      if gated { GatesStay(steps, s, st, Failed); }
      AttemptsGood(steps, s, failed, a + 1, limit, o, Mon(failed, Some(s.name), a, out, m.retries), gated);
      RetryGood(steps, s, st, a, limit, o, m, gated);
    }
  }

  // ---- a whole invocation ----

  /** Gates come before every long step, and a campaign with long steps has no gate with a store. */
  ghost predicate GatesFirst(steps: seq<Step>) {
    forall i, j :: 0 <= i < |steps| && 0 <= j < |steps| && !steps[i].gate && steps[j].gate ==> j < i && !steps[j].store
  }

  /** Gates among the first `k` steps are done. */
  ghost predicate GatesDoneTo(steps: seq<Step>, st: State, k: nat)
    requires k <= |steps|
  {
    forall j :: 0 <= j < k && steps[j].gate && !steps[j].store ==> steps[j].name in st && st[steps[j].name] == Done
  }

  lemma GatesDoneAt(steps: seq<Step>, st: State, k: nat)
    requires k < |steps| && !steps[k].gate && GatesFirst(steps) && GatesDoneTo(steps, st, k)
    ensures GatesDone(steps, st)
  {
    forall s | s in steps && s.gate ensures s.name in st && st[s.name] == Done {
      var j :| 0 <= j < |steps| && steps[j] == s;
    }
  }

  /** The observer between steps: the step last started lies behind. */
  ghost predicate Between(steps: seq<Step>, m: Mon, k: nat)
    requires k <= |steps|
  {
    m.step.Some? ==> exists j :: 0 <= j < k && steps[j].name == m.step.value
  }

  /** One step that is not skipped. */
  lemma StepGood(steps: seq<Step>, k: nat, st: State, i: Invocation, m: Mon, gated: bool) returns (r: StepRun)
    requires DistinctNames(steps) && k < |steps| && m.saved == st && m.retries == i.retries && Between(steps, m, k)
    requires NoStoreNoErrors(steps, st) && !Skips(steps[k], st, i.only, i.all)
    requires gated ==> GatesFirst(steps) && GatesDoneTo(steps, st, k)
    ensures r == Attempts(steps[k], st, 1, Limit(steps[k], i.retries), i.o)
            && AttemptsOk(steps, steps[k], st, r, m, gated)
    ensures Between(steps, ObserveAll(m, r.evs), k + 1)
    ensures gated && !r.blocked ==> GatesDoneTo(steps, r.st, k + 1)
  {
    var s := steps[k];
    r := Attempts(s, st, 1, Limit(s, i.retries), i.o);
    assert AtAttempt(m, s, st, 1);
    if gated && !s.gate { GatesDoneAt(steps, st, k); }
    AttemptsGood(steps, s, st, 1, Limit(s, i.retries), i.o, m, gated);
  }

  lemma {:induction false} StepsGood(steps: seq<Step>, k: nat, st: State, i: Invocation, m: Mon, gated: bool)
    requires DistinctNames(steps) && k <= |steps| && m.saved == st && m.retries == i.retries && Between(steps, m, k)
    requires NoStoreNoErrors(steps, st)
    requires gated ==> GatesFirst(steps) && GatesDoneTo(steps, st, k)
    ensures var evs := Steps(steps[k..], st, i.retries, i.only, i.all, i.o);
            Good(steps, m, evs, gated) && NoStoreNoErrors(steps, ObserveAll(m, evs).saved)
    decreases |steps| - k
  {
    if k < |steps| {
      var s := steps[k];
      assert steps[k..][0] == s && steps[k..][1..] == steps[k + 1..];
      OneStepPerName(steps, s);
      if Skips(s, st, i.only, i.all) {
        StepsGood(steps, k + 1, st, i, m, gated);
      } else {
        var r := StepGood(steps, k, st, i, m, gated);
        if !r.blocked {
          var n := ObserveAll(m, r.evs);
          StepsGood(steps, k + 1, r.st, i, n, gated);
          GoodAppend(steps, m, r.evs, Steps(steps[k + 1..], r.st, i.retries, i.only, i.all, i.o), gated);
        }
      }
    }
  }

  lemma RunGood(steps: seq<Step>, i: Invocation, m: Mon, gated: bool)
    requires DistinctNames(steps) && NoStoreNoErrors(steps, m.saved) && (gated ==> GatesFirst(steps))
    ensures Good(steps, m, RunEvents(steps, m.saved, i), gated)
    ensures NoStoreNoErrors(steps, ObserveAll(m, RunEvents(steps, m.saved, i)).saved)
  {
    var e := Began(i.retries);
    var n := Observe(m, e);
    assert steps[0..] == steps;
    StepsGood(steps, 0, m.saved, i, n, gated);
    var rest := Steps(steps, m.saved, i.retries, i.only, i.all, i.o);
    assert ([e] + rest)[1..] == rest;
  }

  // ---- many invocations ----

  /** An invocation and how many of its events happened before it was killed. */
  datatype Killed = Killed(inv: Invocation, cut: nat)

  /** Everything that happened over a sequence of killed invocations, each starting from the state the
      previous ones left on disk. */
  function History(steps: seq<Step>, runs: seq<Killed>): seq<Event> {
    if runs == [] then []
    else
      var before, k := History(steps, runs[..|runs| - 1]), runs[|runs| - 1];
      var evs := RunEvents(steps, ObserveAll(BLANK, before).saved, k.inv);
      before + if k.cut <= |evs| then evs[..k.cut] else evs
  }

  lemma {:induction false} SavedAlways(steps: seq<Step>, m: Mon, evs: seq<Event>, gated: bool)
    requires Good(steps, m, evs, gated) && NoStoreNoErrors(steps, m.saved)
    ensures NoStoreNoErrors(steps, ObserveAll(m, evs).saved)
    decreases |evs|
  {
    if evs != [] {
      SavedAlways(steps, Observe(m, evs[0]), evs[1..], gated);
    }
  }

  /** Every event of every history is allowed. */
  lemma {:induction false} HistoryGood(steps: seq<Step>, runs: seq<Killed>, gated: bool)
    requires DistinctNames(steps) && (gated ==> GatesFirst(steps))
    ensures Good(steps, BLANK, History(steps, runs), gated)
  {
    if runs != [] {
      var before, k := History(steps, runs[..|runs| - 1]), runs[|runs| - 1];
      HistoryGood(steps, runs[..|runs| - 1], gated);
      SavedAlways(steps, BLANK, before, gated);
      var m := ObserveAll(BLANK, before);
      RunGood(steps, k.inv, m, gated);
      var evs := RunEvents(steps, m.saved, k.inv);
      if k.cut <= |evs| {
        GoodAppend(steps, m, evs[..k.cut], evs[k.cut..], gated);
        assert evs[..k.cut] + evs[k.cut..] == evs;
        GoodAppend(steps, BLANK, before, evs[..k.cut], gated);
      } else {
        GoodAppend(steps, BLANK, before, evs, gated);
      }
    }
  }

  /** State on disk before event `i`. */
  function SavedBefore(evs: seq<Event>, i: nat): State
    requires i <= |evs|
  {
    ObserveAll(BLANK, evs[..i]).saved
  }

  lemma GoodAt(steps: seq<Step>, evs: seq<Event>, gated: bool, i: nat)
    requires Good(steps, BLANK, evs, gated) && i < |evs|
    ensures var m := ObserveAll(BLANK, evs[..i]);
            Allowed(steps, m, evs[i]) && (gated ==> GateAllowed(steps, m, evs[i])) && Good(steps, m, evs[i..], gated)
  {
    GoodAppend(steps, BLANK, evs[..i], evs[i..], gated);
    assert evs[..i] + evs[i..] == evs && evs[i..][0] == evs[i];
  }

  /** A long step starts only when every gate is saved as done, over any number of killed runs. */
  lemma StartsBehindGates(steps: seq<Step>, runs: seq<Killed>, i: nat, n: string)
    requires DistinctNames(steps) && GatesFirst(steps)
    requires i < |History(steps, runs)| && History(steps, runs)[i] == Started(n) && IsLong(steps, n)
    ensures GatesDone(steps, SavedBefore(History(steps, runs), i))
  {
    HistoryGood(steps, runs, true);
    GoodAt(steps, History(steps, runs), true, i);
  }

  lemma {:induction false} FinishedStays(steps: seq<Step>, m: Mon, evs: seq<Event>, n: string, j: nat)
    requires Good(steps, m, evs, false) && Finished(m.saved, n) && j < |evs|
    ensures evs[j] != Started(n)
    decreases |evs|
  {
    if j > 0 {
      FinishedStays(steps, Observe(m, evs[0]), evs[1..], n, j - 1);
    }
  }

  /** A step once saved as done, with errors or without, never starts again. */
  lemma FinishedNeverRestarts(steps: seq<Step>, runs: seq<Killed>, i: nat, j: nat, n: string)
    requires DistinctNames(steps) && i < j < |History(steps, runs)|
    requires var evs := History(steps, runs); evs[i].Saved? && Finished(evs[i].st, n)
    ensures History(steps, runs)[j] != Started(n)
  {
    var evs := History(steps, runs);
    HistoryGood(steps, runs, false);
    GoodAt(steps, evs, false, i);
    assert evs[i..][1..] == evs[i + 1..];
    FinishedStays(steps, Observe(ObserveAll(BLANK, evs[..i]), evs[i]), evs[i + 1..], n, j - i - 1);
  }

  /** A step is first saved as done with errors only right after all the attempts one invocation allows it, a gate one
      and any other `1 + retries`, the last of which exited cleanly with items still in error. */
  lemma ErrorsAfterAllAttempts(steps: seq<Step>, runs: seq<Killed>, i: nat, n: string)
    requires DistinctNames(steps) && i < |History(steps, runs)|
    requires var evs := History(steps, runs);
             evs[i].Saved? && n in evs[i].st && evs[i].st[n] == DoneWithErrors && !Finished(SavedBefore(evs, i), n)
    ensures var m := ObserveAll(BLANK, History(steps, runs)[..i]);
            m.step == Some(n) && m.tries == Tries(steps, n, m.retries) && m.last.rc == 0 && m.last.errors > 0
  {
    HistoryGood(steps, runs, false);
    GoodAt(steps, History(steps, runs), false, i);
  }
}
