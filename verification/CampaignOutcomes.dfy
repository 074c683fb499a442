/** What a campaign makes of its steps' exit codes and audits: which steps an invocation starts, how often, how each
    ends, and when a step is saved as done. */
module CampaignOutcomes {
  import opened Campaign
  import opened CampaignSafety

  /** Exit code zero and, if the step has a store, no item left in error. */
  predicate Clean(store: bool, out: Outcome) {
    out.rc == 0 && (store ==> out.errors == 0)
  }

  // ---- one step ----

  /** The first `n` attempts from attempt `a` on: each is announced, started and seen to return, and saved. */
  ghost predicate AttemptsRun(s: Step, o: Oracle, evs: seq<Event>, a: nat, n: nat) {
    && |evs| >= 4 * n
    && forall b :: 0 <= b < n ==>
                     evs[4 * b + 1] == Started(s.name) && evs[4 * b + 2] == Returned(s.name, o(s.name, a + b))
  }

  /** How a step ends after its last outcome. */
  function EndsAs(s: Step, out: Outcome): Status {
    if out.rc == 0 then (if s.store && out.errors > 0 then DoneWithErrors else Done) else Failed
  }

  /** What a step run from attempt `a` on leaves when attempt `a + n - 1` is its last. */
  ghost predicate EndsAfter(s: Step, st: State, o: Oracle, a: nat, n: nat, r: StepRun)
    requires n >= 1
  {
    var out := o(s.name, a + n - 1);
    && AttemptsRun(s, o, r.evs, a, n) && |r.evs| == (if Clean(s.store, out) then 4 * n else 4 * n + 1)
    && r.evs[|r.evs| - 1] == Saved(r.st) && r.st == st[s.name := EndsAs(s, out)]
    && (r.blocked <==> s.gate && out.rc != 0)
  }

  /** A step is tried until it comes back clean, a gate once and any other up to the limit; it ends as its last
      outcome says, and a gate blocks exactly when that outcome's exit code is not zero. */
  lemma {:induction false} StepEndsAs(s: Step, st: State, a: nat, limit: nat, o: Oracle) returns (last: nat)
    requires 1 <= a <= limit && (!s.store ==> limit == 1)
    ensures a <= last <= limit && (s.gate ==> last == a)
    ensures forall b :: a <= b < last ==> !Clean(s.store, o(s.name, b))
    ensures Clean(s.store, o(s.name, last)) || s.gate || last == limit
    ensures EndsAfter(s, st, o, a, last - a + 1, Attempts(s, st, a, limit, o))
    decreases limit - a
  {
    if Passed(s, o(s.name, a)) || s.gate || a == limit {
      last := a;
      LastAttempt(s, st, a, limit, o);
    } else {
      assert !Clean(s.store, o(s.name, a));
      last := StepEndsAs(s, st[s.name := Failed], a + 1, limit, o);
      assert last - (a + 1) + 1 == last - a;
      OneMoreAttempt(s, st, a, limit, o, last - a);
    }
  }

  /** Within one invocation: a step with a store is tried at most `1 + retries` times, any other once. */
  lemma StepOutcome(s: Step, st: State, retries: nat, o: Oracle) returns (last: nat)
    ensures 1 <= last <= (if s.store then 1 + retries else 1) && (s.gate ==> last == 1)
    ensures forall b :: 1 <= b < last ==> !Clean(s.store, o(s.name, b))
    ensures Clean(s.store, o(s.name, last)) || s.gate || last == if s.store then 1 + retries else 1
    ensures EndsAfter(s, st, o, 1, last, Attempts(s, st, 1, Limit(s, retries), o))
  {
    last := StepEndsAs(s, st, 1, Limit(s, retries), o);
  }

  lemma LastAttempt(s: Step, st: State, a: nat, limit: nat, o: Oracle)
    requires 1 <= a <= limit && (Passed(s, o(s.name, a)) || s.gate || a == limit)
    ensures EndsAfter(s, st, o, a, 1, Attempts(s, st, a, limit, o))
  {}

  lemma OneMoreAttempt(s: Step, st: State, a: nat, limit: nat, o: Oracle, m: nat)
    requires 1 <= a < limit && !Passed(s, o(s.name, a)) && !s.gate && m >= 1
    requires EndsAfter(s, st[s.name := Failed], o, a + 1, m, Attempts(s, st[s.name := Failed], a + 1, limit, o))
    ensures EndsAfter(s, st, o, a, m + 1, Attempts(s, st, a, limit, o))
  {
    var failed := st[s.name := Failed];
    var rest := Attempts(s, failed, a + 1, limit, o);
    var first := [Saved(st[s.name := Running]), Started(s.name), Returned(s.name, o(s.name, a))] + [Saved(failed)];
    assert Attempts(s, st, a, limit, o) == StepRun(first + rest.evs, rest.st, rest.blocked);
    Shifted(s, o, first, rest.evs, a, m);
  }

  lemma Shifted(s: Step, o: Oracle, first: seq<Event>, rest: seq<Event>, a: nat, m: nat)
    requires |first| == 4 && first[1] == Started(s.name) && first[2] == Returned(s.name, o(s.name, a))
    requires AttemptsRun(s, o, rest, a + 1, m)
    ensures AttemptsRun(s, o, first + rest, a, m + 1)
  {
    var evs := first + rest;
    forall b | 0 <= b < m + 1
      ensures evs[4 * b + 1] == Started(s.name) && evs[4 * b + 2] == Returned(s.name, o(s.name, a + b))
    {
      if b > 0 { assert rest[4 * (b - 1) + 1] == Started(s.name); }
    }
  }

  // ---- one invocation ----

  lemma {:induction false} OwnEvents(s: Step, st: State, a: nat, limit: nat, o: Oracle)
    requires 1 <= a <= limit
    ensures forall n :: Started(n) in Attempts(s, st, a, limit, o).evs <==> n == s.name
    ensures Others(st, Attempts(s, st, a, limit, o).st, s.name)
    decreases limit - a
  {
    var out, failed := o(s.name, a), st[s.name := Failed];
    var first := [Saved(st[s.name := Running]), Started(s.name), Returned(s.name, out)];
    assert first[1] == Started(s.name);
    if !Passed(s, out) && !s.gate && a < limit {
      OwnEvents(s, failed, a + 1, limit, o);
      assert Attempts(s, st, a, limit, o).evs == first + [Saved(failed)] + Attempts(s, failed, a + 1, limit, o).evs;
    }
  }

  lemma {:induction false} OnlyNamed(steps: seq<Step>, st: State, i: Invocation, n: string)
    requires forall s :: s in steps ==> s.name != n
    ensures Started(n) !in Steps(steps, st, i.retries, i.only, i.all, i.o)
  {
    if steps != [] {
      if Skips(steps[0], st, i.only, i.all) {
        OnlyNamed(steps[1..], st, i, n);
      } else {
        var r := Attempts(steps[0], st, 1, Limit(steps[0], i.retries), i.o);
        OwnEvents(steps[0], st, 1, Limit(steps[0], i.retries), i.o);
        OnlyNamed(steps[1..], r.st, i, n);
      }
    }
  }

  /** Asked for: a gate always is, any other step when everything or the step itself is selected. */
  predicate Selected(s: Step, i: Invocation) {
    s.gate || i.all || s.name in i.only
  }

  /** Gate `g` stands in the way: it is not finished and comes back with an exit code other than zero. */
  predicate Stops(steps: seq<Step>, st: State, i: Invocation, g: nat)
    requires g < |steps|
  {
    steps[g].gate && !Finished(st, steps[g].name) && i.o(steps[g].name, 1).rc != 0
  }

  /** Which steps an invocation that is not killed starts, from step `k` on. */
  lemma {:induction false} StartsFrom(steps: seq<Step>, k: nat, st: State, i: Invocation, j: nat)
    requires DistinctNames(steps) && k <= j < |steps|
    ensures Started(steps[j].name) in Steps(steps[k..], st, i.retries, i.only, i.all, i.o)
       <==> !Finished(st, steps[j].name) && Selected(steps[j], i) && FreeFrom(steps, st, i, k, j)
    decreases |steps| - k
  {
    var s := steps[k];
    LaterNames(steps, k);
    TailOf(steps, k);
    if Skips(s, st, i.only, i.all) {
      if j == k { OnlyNamed(steps[k + 1..], st, i, s.name); } else { StartsFrom(steps, k + 1, st, i, j); }
    } else {
      var limit := Limit(s, i.retries);
      var r := Attempts(s, st, 1, limit, i.o);
      OwnEvents(s, st, 1, limit, i.o);
      var _ := StepEndsAs(s, st, 1, limit, i.o);
      assert j > k ==> (r.blocked <==> Stops(steps, st, i, k));
      if j > k && !r.blocked {
        StartsFrom(steps, k + 1, r.st, i, j);
        SameStops(steps, k, st, r.st, i, j);
        InBoth(r.evs, Steps(steps[k + 1..], r.st, i.retries, i.only, i.all, i.o), Started(steps[j].name));
      }
    }
  }

  /** No gate from step `k` on and before step `j` stands in the way. */
  ghost predicate FreeFrom(steps: seq<Step>, st: State, i: Invocation, k: nat, j: nat)
    requires j <= |steps|
  {
    forall g :: k <= g < j ==> !Stops(steps, st, i, g)
  }

  lemma TailOf(steps: seq<Step>, k: nat)
    requires k < |steps|
    ensures steps[k..] != [] && steps[k..][0] == steps[k] && steps[k..][1..] == steps[k + 1..]
  {}

  lemma InBoth<T>(a: seq<T>, b: seq<T>, x: T)
    ensures x in a + b <==> x in a || x in b
  {}

  lemma LaterNames(steps: seq<Step>, k: nat)
    requires DistinctNames(steps) && k < |steps|
    ensures forall s :: s in steps[k + 1..] ==> s.name != steps[k].name
  {}

  lemma SameStops(steps: seq<Step>, k: nat, st: State, after: State, i: Invocation, j: nat)
    requires DistinctNames(steps) && k < j < |steps| && Others(st, after, steps[k].name)
    ensures Finished(after, steps[j].name) <==> Finished(st, steps[j].name)
    ensures FreeFrom(steps, after, i, k + 1, j) <==> FreeFrom(steps, st, i, k + 1, j)
  {
    forall g | k + 1 <= g < j ensures Stops(steps, after, i, g) <==> Stops(steps, st, i, g) {}
  }

  /** An invocation starts a step exactly when it is not finished, it is selected, and no gate before it that is not
      finished comes back with an exit code other than zero. */
  lemma StartsIff(steps: seq<Step>, st: State, i: Invocation, j: nat)
    requires DistinctNames(steps) && j < |steps|
    ensures Started(steps[j].name) in RunEvents(steps, st, i)
       <==> !Finished(st, steps[j].name) && Selected(steps[j], i) && FreeFrom(steps, st, i, 0, j)
  {
    assert steps[0..] == steps;
    StartsFrom(steps, 0, st, i, j);
  }

  // ---- when a step is saved as done ----

  /** A return that counts. */
  ghost predicate CleanReturn(steps: seq<Step>, e: Event, n: string) {
    e.Returned? && e.name == n && Clean(HasStore(steps, n), e.out)
  }

  ghost predicate IsStep(steps: seq<Step>, n: string) {
    exists s :: s in steps && s.name == n
  }

  /** What one event may be after another, `saved` being the state on disk between them. */
  ghost predicate PairOk(steps: seq<Step>, saved: State, e: Event, next: Event) {
    && (next.Saved? ==> forall n :: NewlyDone(saved, next.st, n) ==> CleanReturn(steps, e, n))
    && forall n :: IsStep(steps, n) && CleanReturn(steps, e, n) && !next.Began? ==> SavesDone(next, n)
  }

  predicate NewlyDone(before: State, st: State, n: string) {
    n in st && st[n] == Done && !Finished(before, n)
  }

  predicate SavesDone(e: Event, n: string) {
    e.Saved? && n in e.st && e.st[n] == Done
  }

  function OnDisk(saved: State, e: Event): State {
    if e.Saved? then e.st else saved
  }

  ghost predicate Chain(steps: seq<Step>, saved: State, e: Event, evs: seq<Event>)
    decreases |evs|
  {
    evs == [] || (PairOk(steps, saved, e, evs[0]) && Chain(steps, OnDisk(saved, evs[0]), evs[0], evs[1..]))
  }

  function DiskAfter(saved: State, evs: seq<Event>): State
    decreases |evs|
  {
    if evs == [] then saved else DiskAfter(OnDisk(saved, evs[0]), evs[1..])
  }

  function LastEvent(e: Event, evs: seq<Event>): Event {
    if evs == [] then e else evs[|evs| - 1]
  }

  lemma {:induction false} ChainAppend(steps: seq<Step>, saved: State, e: Event, a: seq<Event>, b: seq<Event>)
    ensures DiskAfter(saved, a + b) == DiskAfter(DiskAfter(saved, a), b)
    ensures Chain(steps, saved, e, a + b)
            <==> Chain(steps, saved, e, a) && Chain(steps, DiskAfter(saved, a), LastEvent(e, a), b)
    decreases |a|
  {
    if a == [] {
      assert a + b == b;
    } else {
      assert (a + b)[0] == a[0] && (a + b)[1..] == a[1..] + b;
      ChainAppend(steps, OnDisk(saved, a[0]), a[0], a[1..], b);
    }
  }

  /** The state the observer has on disk is the last one saved. */
  lemma {:induction false} DiskIs(m: Mon, evs: seq<Event>)
    ensures ObserveAll(m, evs).saved == DiskAfter(m.saved, evs)
    decreases |evs|
  {
    if evs != [] { DiskIs(Observe(m, evs[0]), evs[1..]); }
  }

  /** Not a return: nothing is owed to it. */
  predicate Quiet(e: Event) {
    !e.Returned?
  }

  /** From announcing an attempt to saving what became of it. */
  lemma AttemptChain(steps: seq<Step>, s: Step, st: State, out: Outcome, e: Event, status: Status)
    requires DistinctNames(steps) && s in steps && Quiet(e) && !Finished(st, s.name)
    requires status in {Done, Failed} && (status == Done <==> Clean(s.store, out))
    ensures var evs := [Saved(st[s.name := Running]), Started(s.name), Returned(s.name, out),
                        Saved(st[s.name := status])];
            Chain(steps, st, e, evs) && DiskAfter(st, evs) == st[s.name := status]
  {
    OneStepPerName(steps, s);
    var running, after := st[s.name := Running], st[s.name := status];
    var a, b, c, d := Saved(running), Started(s.name), Returned(s.name, out), Saved(after);
    assert PairOk(steps, st, e, a) && PairOk(steps, running, a, b) && PairOk(steps, running, b, c);
    assert PairOk(steps, running, c, d);
    ChainFour(steps, st, e, a, b, c, d);
  }

  lemma ChainFour(steps: seq<Step>, saved: State, e: Event, a: Event, b: Event, c: Event, d: Event)
    requires PairOk(steps, saved, e, a)
    requires var s1 := OnDisk(saved, a);
             var s2 := OnDisk(s1, b);
             PairOk(steps, s1, a, b) && PairOk(steps, s2, b, c) && PairOk(steps, OnDisk(s2, c), c, d)
    ensures Chain(steps, saved, e, [a, b, c, d])
    ensures DiskAfter(saved, [a, b, c, d]) == OnDisk(OnDisk(OnDisk(OnDisk(saved, a), b), c), d)
  {
    var s1 := OnDisk(saved, a);
    var s2 := OnDisk(s1, b);
    ChainOne(steps, OnDisk(s2, c), c, d, []);
    ChainOne(steps, s2, b, c, [d]);
    ChainOne(steps, s1, a, b, [c, d]);
    ChainOne(steps, saved, e, a, [b, c, d]);
    assert [d] + [] == [d] && [c] + [d] == [c, d] && [b] + [c, d] == [b, c, d] && [a] + [b, c, d] == [a, b, c, d];
  }

  lemma ChainOne(steps: seq<Step>, saved: State, e: Event, a: Event, rest: seq<Event>)
    requires PairOk(steps, saved, e, a) && Chain(steps, OnDisk(saved, a), a, rest)
    ensures Chain(steps, saved, e, [a] + rest) && DiskAfter(saved, [a] + rest) == DiskAfter(OnDisk(saved, a), rest)
  {
    assert ([a] + rest)[1..] == rest;
  }

  /** Saving once more after a failure was saved. */
  lemma SettleChain(steps: seq<Step>, s: Step, st: State, status: Status)
    requires status in {DoneWithErrors, Failed}
    ensures var failed := st[s.name := Failed];
            && Chain(steps, failed, Saved(failed), [Saved(st[s.name := status])])
            && DiskAfter(failed, [Saved(st[s.name := status])]) == st[s.name := status]
  {
    assert [Saved(st[s.name := status])][1..] == [];
  }

  /** A step's events are in order, and end with its state saved. */
  ghost predicate InOrder(steps: seq<Step>, st: State, e: Event, r: StepRun) {
    Chain(steps, st, e, r.evs) && DiskAfter(st, r.evs) == r.st && r.evs != [] && Quiet(r.evs[|r.evs| - 1])
  }

  lemma {:induction false} AttemptsChain(steps: seq<Step>, s: Step, st: State, a: nat, limit: nat, o: Oracle, e: Event)
    requires DistinctNames(steps) && s in steps && 1 <= a <= limit && Quiet(e) && !Finished(st, s.name)
    ensures InOrder(steps, st, e, Attempts(s, st, a, limit, o))
    decreases limit - a
  {
    if Passed(s, o(s.name, a)) {
      PassedInOrder(steps, s, st, a, limit, o, e);
    } else if s.gate || a == limit {
      LastInOrder(steps, s, st, a, limit, o, e);
    } else {
      AttemptsChain(steps, s, st[s.name := Failed], a + 1, limit, o, Saved(st[s.name := Failed]));
      RetryInOrder(steps, s, st, a, limit, o, e);
    }
  }

  lemma PassedInOrder(steps: seq<Step>, s: Step, st: State, a: nat, limit: nat, o: Oracle, e: Event)
    requires DistinctNames(steps) && s in steps && 1 <= a <= limit && Quiet(e) && !Finished(st, s.name)
    requires Passed(s, o(s.name, a))
    ensures InOrder(steps, st, e, Attempts(s, st, a, limit, o))
  {
    var out := o(s.name, a);
    AttemptChain(steps, s, st, out, e, Done);
    assert Attempts(s, st, a, limit, o).evs
        == [Saved(st[s.name := Running]), Started(s.name), Returned(s.name, out), Saved(st[s.name := Done])];
  }

  lemma LastInOrder(steps: seq<Step>, s: Step, st: State, a: nat, limit: nat, o: Oracle, e: Event)
    requires DistinctNames(steps) && s in steps && 1 <= a <= limit && Quiet(e) && !Finished(st, s.name)
    requires !Passed(s, o(s.name, a)) && (s.gate || a == limit)
    ensures InOrder(steps, st, e, Attempts(s, st, a, limit, o))
  {
    var out, failed := o(s.name, a), st[s.name := Failed];
    AttemptChain(steps, s, st, out, e, Failed);
    var evs := [Saved(st[s.name := Running]), Started(s.name), Returned(s.name, out), Saved(failed)];
    var status := if s.store && out.rc == 0 then DoneWithErrors else Failed;
    SettleChain(steps, s, st, status);
    ChainAppend(steps, st, e, evs, [Saved(st[s.name := status])]);
    assert Attempts(s, st, a, limit, o).evs == evs + [Saved(st[s.name := status])];
  }

  lemma RetryInOrder(steps: seq<Step>, s: Step, st: State, a: nat, limit: nat, o: Oracle, e: Event)
    requires DistinctNames(steps) && s in steps && 1 <= a < limit && Quiet(e) && !Finished(st, s.name)
    requires !Passed(s, o(s.name, a)) && !s.gate
    requires InOrder(steps, st[s.name := Failed], Saved(st[s.name := Failed]),
                     Attempts(s, st[s.name := Failed], a + 1, limit, o))
    ensures InOrder(steps, st, e, Attempts(s, st, a, limit, o))
  {
    var out, failed := o(s.name, a), st[s.name := Failed];
    AttemptChain(steps, s, st, out, e, Failed);
    var evs := [Saved(st[s.name := Running]), Started(s.name), Returned(s.name, out), Saved(failed)];
    var rest := Attempts(s, failed, a + 1, limit, o);
    ChainAppend(steps, st, e, evs, rest.evs);
    assert Attempts(s, st, a, limit, o) == StepRun(evs + rest.evs, rest.st, rest.blocked);
  }

  lemma {:induction false} StepsChain(steps: seq<Step>, k: nat, st: State, i: Invocation, e: Event)
    requires DistinctNames(steps) && k <= |steps| && Quiet(e)
    ensures Chain(steps, st, e, Steps(steps[k..], st, i.retries, i.only, i.all, i.o))
    decreases |steps| - k
  {
    if k < |steps| {
      var s := steps[k];
      assert steps[k..][0] == s && steps[k..][1..] == steps[k + 1..];
      if Skips(s, st, i.only, i.all) {
        StepsChain(steps, k + 1, st, i, e);
      } else {
        var r := Attempts(s, st, 1, Limit(s, i.retries), i.o);
        AttemptsChain(steps, s, st, 1, Limit(s, i.retries), i.o, e);
        if !r.blocked {
          StepsChain(steps, k + 1, r.st, i, r.evs[|r.evs| - 1]);
          ChainAppend(steps, st, e, r.evs, Steps(steps[k + 1..], r.st, i.retries, i.only, i.all, i.o));
        }
      }
    }
  }

  lemma RunChain(steps: seq<Step>, st: State, i: Invocation, e: Event)
    requires DistinctNames(steps)
    ensures Chain(steps, st, e, RunEvents(steps, st, i))
  {
    var began := Began(i.retries);
    assert steps[0..] == steps;
    StepsChain(steps, 0, st, i, began);
    var rest := Steps(steps, st, i.retries, i.only, i.all, i.o);
    assert ([began] + rest)[0] == began && ([began] + rest)[1..] == rest;
    assert PairOk(steps, st, e, began);
  }

  lemma {:induction false} HistoryChain(steps: seq<Step>, runs: seq<Killed>)
    requires DistinctNames(steps)
    ensures Chain(steps, map[], Began(0), History(steps, runs))
  {
    if runs != [] {
      var before, k := History(steps, runs[..|runs| - 1]), runs[|runs| - 1];
      HistoryChain(steps, runs[..|runs| - 1]);
      DiskIs(BLANK, before);
      var disk := DiskAfter(map[], before);
      var evs := RunEvents(steps, disk, k.inv);
      RunChain(steps, disk, k.inv, LastEvent(Began(0), before));
      var cut := if k.cut <= |evs| then k.cut else |evs|;
      assert evs[..cut] + evs[cut..] == evs && evs[..|evs|] == evs;
      ChainAppend(steps, disk, LastEvent(Began(0), before), evs[..cut], evs[cut..]);
      ChainAppend(steps, map[], Began(0), before, evs[..cut]);
    }
  }

  /** Two neighbours in a history. */
  lemma NeighboursOk(steps: seq<Step>, runs: seq<Killed>, i: nat)
    requires DistinctNames(steps) && i < |History(steps, runs)|
    ensures var evs := History(steps, runs);
            PairOk(steps, SavedBefore(evs, i), if i == 0 then Began(0) else evs[i - 1], evs[i])
  {
    var evs := History(steps, runs);
    HistoryChain(steps, runs);
    DiskIs(BLANK, evs[..i]);
    assert evs[..i] + evs[i..] == evs && evs[i..][0] == evs[i];
    ChainAppend(steps, map[], Began(0), evs[..i], evs[i..]);
  }

  /** Over any killed invocations: a step is newly saved as done only right after that step returned with exit code zero
      and, if it has a store, with no item in error. */
  lemma DoneEarned(steps: seq<Step>, runs: seq<Killed>, i: nat, n: string)
    requires DistinctNames(steps) && i < |History(steps, runs)|
    requires var evs := History(steps, runs);
             evs[i].Saved? && n in evs[i].st && evs[i].st[n] == Done && !Finished(SavedBefore(evs, i), n)
    ensures var evs := History(steps, runs);
            && i > 0 && evs[i - 1].Returned? && evs[i - 1].name == n && evs[i - 1].out.rc == 0
            && (HasStore(steps, n) ==> evs[i - 1].out.errors == 0)
  {
    NeighboursOk(steps, runs, i);
    var evs := History(steps, runs);
    var e := if i == 0 then Began(0) else evs[i - 1];
    assert NewlyDone(SavedBefore(evs, i), evs[i].st, n);
    assert CleanReturn(steps, e, n);
  }

  /** And such a return is saved as done at once, unless the invocation is killed first. */
  lemma CleanIsDone(steps: seq<Step>, runs: seq<Killed>, i: nat, n: string)
    requires DistinctNames(steps) && 0 < i < |History(steps, runs)| && IsStep(steps, n)
    requires var e := History(steps, runs)[i - 1];
             e.Returned? && e.name == n && e.out.rc == 0 && (HasStore(steps, n) ==> e.out.errors == 0)
    ensures var e := History(steps, runs)[i]; e.Began? || (e.Saved? && n in e.st && e.st[n] == Done)
  {
    NeighboursOk(steps, runs, i);
    assert CleanReturn(steps, History(steps, runs)[i - 1], n);
  }
}
