/** The campaign driver: gates first, then the long steps, each saved atomically before and after every
    attempt so that a killed campaign resumes. A step's process is an oracle giving an outcome. */
module Campaign {

  /** `store`: whether the step has a result store to audit, and hence retries. */
  datatype Step = Step(name: string, gate: bool, store: bool)

  datatype Status = Running | Done | DoneWithErrors | Failed

  type State = map<string, Status>

  /** Exit code, and how many items' latest record is an error. */
  datatype Outcome = Outcome(rc: int, errors: nat)

  type Oracle = (string, nat) -> Outcome

  /** What a run does that outlives it or starts something: it begins, saves its state to disk, starts a
      step's process, and sees it return. */
  datatype Event = Began(retries: nat) | Saved(st: State) | Started(name: string) | Returned(name: string, out: Outcome)

  predicate Finished(st: State, n: string) {
    n in st && (st[n] == Done || st[n] == DoneWithErrors)
  }

  predicate Passed(s: Step, out: Outcome) {
    out.rc == 0 && (!s.store || out.errors == 0)
  }

  /** Events of a step and the state left in memory; `blocked` when a gate failed. */
  datatype StepRun = StepRun(evs: seq<Event>, st: State, blocked: bool)

  /** Attempt `a` (counted from one) of at most `limit`, and any further ones. */
  function Attempts(s: Step, st: State, a: nat, limit: nat, o: Oracle): (r: StepRun)
    requires 1 <= a <= limit
    decreases limit - a
  {
    var out, running, failed := o(s.name, a), st[s.name := Running], st[s.name := Failed];
    var first := [Saved(running), Started(s.name), Returned(s.name, out)];
    if Passed(s, out) then
      StepRun(first + [Saved(st[s.name := Done])], st[s.name := Done], false)
    else if s.gate || a == limit then
      var last := if s.store && out.rc == 0 then st[s.name := DoneWithErrors] else failed;
      StepRun(first + [Saved(failed), Saved(last)], last, last[s.name] == Failed && s.gate)
    else
      var rest := Attempts(s, failed, a + 1, limit, o);
      StepRun(first + [Saved(failed)] + rest.evs, rest.st, rest.blocked)
  }

  function Limit(s: Step, retries: nat): nat {
    1 + if s.store then retries else 0
  }

  predicate Skips(s: Step, st: State, only: set<string>, all: bool) {
    (!all && !s.gate && s.name !in only) || Finished(st, s.name)
  }

  /** The steps from here on; a failed gate ends the run. */
  function Steps(steps: seq<Step>, st: State, retries: nat, only: set<string>, all: bool, o: Oracle): seq<Event> {
    if steps == [] then []
    else if Skips(steps[0], st, only, all) then Steps(steps[1..], st, retries, only, all, o)
    else
      var r := Attempts(steps[0], st, 1, Limit(steps[0], retries), o);
      if r.blocked then r.evs else r.evs + Steps(steps[1..], r.st, retries, only, all, o)
  }

  /** One invocation: its retry limit, its `--only` selection (`all` when absent), and its outcomes. */
  datatype Invocation = Invocation(retries: nat, only: set<string>, all: bool, o: Oracle)

  function RunEvents(steps: seq<Step>, st: State, i: Invocation): seq<Event> {
    [Began(i.retries)] + Steps(steps, st, i.retries, i.only, i.all, i.o)
  }

  // ---- the loop ----

  /** After the attempts: a step with a store that ran to completion but still has failing items is
      recorded as such. */
  function Settled(s: Step, st: State, rc: int): State {
    if s.name in st && st[s.name] == Failed && s.store && rc == 0 then st[s.name := DoneWithErrors] else st
  }

  /** The whole step, once its attempts have left `evs` and `st`. */
  function Close(s: Step, evs: seq<Event>, st: State, rc: int): StepRun {
    var last := Settled(s, st, rc);
    StepRun(evs + [Saved(last)], last, s.name in last && last[s.name] == Failed && s.gate)
  }

  function Before(evs: seq<Event>, r: StepRun): StepRun {
    StepRun(evs + r.evs, r.st, r.blocked)
  }

  /** One attempt either closes the step or leaves the rest to do. */
  lemma AttemptUnfold(s: Step, st: State, a: nat, limit: nat, o: Oracle, evs: seq<Event>)
    requires 1 <= a <= limit
    ensures var out := o(s.name, a);
            var run := evs + [Saved(st[s.name := Running]), Started(s.name), Returned(s.name, out)];
            Before(evs, Attempts(s, st, a, limit, o)) ==
              if Passed(s, out) then Close(s, run, st[s.name := Done], out.rc)
              else if s.gate || a == limit
                then Close(s, run + [Saved(st[s.name := Failed])], st[s.name := Failed], out.rc)
              else Before(run + [Saved(st[s.name := Failed])], Attempts(s, st[s.name := Failed], a + 1, limit, o))
  {
    var out := o(s.name, a);
    var first := [Saved(st[s.name := Running]), Started(s.name), Returned(s.name, out)];
    assert st[s.name := Failed][s.name := DoneWithErrors] == st[s.name := DoneWithErrors];
    if !Passed(s, out) && !(s.gate || a == limit) {
      var rest := Attempts(s, st[s.name := Failed], a + 1, limit, o);
      assert evs + (first + [Saved(st[s.name := Failed])] + rest.evs)
             == evs + first + [Saved(st[s.name := Failed])] + rest.evs;
    }
  }

  /** One step of the loop: attempts until it passes, its gate closes, or the limit is reached. */
  method RunStep(s: Step, st: State, retries: nat, o: Oracle) returns (evs: seq<Event>, after: State, blocked: bool)
    ensures StepRun(evs, after, blocked) == Attempts(s, st, 1, Limit(s, retries), o)
  {
    evs, after := [], st;
    var attempt, stop, rc := 0, false, 0;
    ghost var whole, limit := Attempts(s, st, 1, Limit(s, retries), o), Limit(s, retries);
    assert Before([], whole) == whole;
    while attempt < 1 + (if s.store then retries else 0) && !stop
      invariant attempt <= limit && (attempt == 0 ==> !stop) && (attempt > 0 ==> s.name in after)
      invariant if !stop && attempt < limit then Before(evs, Attempts(s, after, attempt + 1, limit, o)) == whole
                else Close(s, evs, after, rc) == whole
    {
      AttemptUnfold(s, after, attempt + 1, limit, o, evs);
      ghost var was := after;
      var out := o(s.name, attempt + 1);
      rc := out.rc;
      after := after[s.name := Running];
      evs := evs + [Saved(after), Started(s.name), Returned(s.name, out)];
      if rc == 0 && (!s.store || out.errors == 0) {
        after := after[s.name := Done];
        stop := true;
        assert after == was[s.name := Done];
      } else {
        after := after[s.name := Failed];
        evs := evs + [Saved(after)];
        stop := s.gate;
        assert after == was[s.name := Failed];
      }
      attempt := attempt + 1;
    }
    if after[s.name] == Failed && s.store && rc == 0 {
      after := after[s.name := DoneWithErrors];
    }
    evs := evs + [Saved(after)];
    blocked := after[s.name] == Failed && s.gate;
  }

  /** One invocation of the campaign from a loaded state. */
  method RunCampaign(steps: seq<Step>, st: State, i: Invocation) returns (evs: seq<Event>)
    ensures evs == RunEvents(steps, st, i)
  {
    evs := [Began(i.retries)];
    var now := st;
    for k := 0 to |steps|
      invariant evs + Steps(steps[k..], now, i.retries, i.only, i.all, i.o) == RunEvents(steps, st, i)
    {
      var s := steps[k];
      assert steps[k..][0] == s && steps[k..][1..] == steps[k + 1..];
      if !i.all && !s.gate && s.name !in i.only {
        continue;
      }
      if s.name in now && (now[s.name] == Done || now[s.name] == DoneWithErrors) {
        continue;
      }
      var more, after, blocked := RunStep(s, now, i.retries, i.o);
      evs, now := evs + more, after;
      if blocked {
        return;
      }
    }
  }
}
