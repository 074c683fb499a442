/** The single-writer lock as a protocol over processes, crashes and reboots. Acquiring is one atomic
    step; process ids are reused, handles may be closed more than once. */
module WriterLock {
  import opened Options

  /** The lock file: the writer's pid and its reading of the boot time. `epoch` numbers the boot the
      reading was taken in; the code cannot see it, the statements below use it. */
  datatype Lock = Lock(pid: nat, boot: int, epoch: nat)

  datatype Handle = Handle(pid: nat, id: nat)

  /** `live`: pids of running harness processes; `writers`: open handles; `closed`: handles of running
      processes that were closed at least once. `tick` counts steps. */
  datatype State = State(epoch: nat, tick: nat, live: set<nat>, lock: Option<Lock>, writers: set<Handle>,
                         closed: set<Handle>)

  datatype Step = Start(pid: nat) | Die(pid: nat) | Reboot | Acquire(h: Handle) | Close(h: Handle)

  /** What the processes can observe: `boot(epoch, tick)` is a reading of the boot time, and
      `alive(tick, pid)` the liveness test. */
  datatype World = World(boot: (nat, nat) -> int, alive: (nat, nat) -> bool)

  function Abs(x: int): nat {
    if x < 0 then -x else x
  }

  /** Readings agree to within two minutes inside a boot and differ by more across boots. */
  ghost predicate BootLaw(w: World) {
    forall e: nat, t: nat, e': nat, t': nat :: Abs(w.boot(e, t) - w.boot(e', t')) <= 120 <==> e == e'
  }

  const INIT := State(0, 0, {}, None, {}, {})

  /** The test an opening makes: a lock of this boot whose pid tests alive refuses it. */
  predicate Refuses(lock: Option<Lock>, now: int, alive: bool) {
    lock.Some? && lock.value.pid != 0 && !(Abs(lock.value.boot - now) > 120) && alive
  }

  predicate Blocked(w: World, s: State) {
    Refuses(s.lock, w.boot(s.epoch, s.tick), s.lock.Some? && w.alive(s.tick, s.lock.value.pid))
  }

  /** The lock file itself, as one process handles it. */
  class LockFile {
    var lock: Option<Lock>

    constructor ()
      ensures lock == None
    {
      lock := None;
    }

    /** Claims the store unless a live process of this boot holds it. `now` is this process's boot
        reading, `alive` the liveness test. */
    method Acquire(pid: nat, now: int, epoch: nat, alive: nat -> bool) returns (ok: bool)
      modifies this
      ensures ok <==> !Refuses(old(lock), now, old(lock).Some? && alive(old(lock).value.pid))
      ensures lock == if ok then Some(Lock(pid, now, epoch)) else old(lock)
    {
      if lock.Some? {
        var prev := lock.value;
        var beforeBoot := Abs(prev.boot - now) > 120;
        if prev.pid != 0 && !beforeBoot && alive(prev.pid) {
          return false;
        }
      }
      lock := Some(Lock(pid, now, epoch));
      return true;
    }

    /** Gives the lock up if it is this process's own; any other lock is left alone. */
    method Release(pid: nat)
      modifies this
      ensures lock == if old(lock).Some? && old(lock).value.pid == pid then None else old(lock)
    {
      if lock.None? || lock.value.pid != pid {
        return;
      }
      lock := None;
    }
  }

  /** The liveness test is never false for a running harness. */
  predicate SeesLive(w: World, s: State) {
    forall p :: p in s.live ==> w.alive(s.tick, p)
  }

  predicate Enabled(w: World, s: State, step: Step) {
    && SeesLive(w, s)
    && match step
       case Start(pid) => pid > 0 && pid !in s.live
       case Die(pid) => pid in s.live
       case Reboot => true
       case Acquire(h) => h.pid in s.live && h !in s.writers && h !in s.closed
       case Close(h) => h in s.writers || h in s.closed
  }

  function Apply(w: World, s: State, step: Step): State {
    var n := s.(tick := s.tick + 1);
    match step
    case Start(pid) => n.(live := s.live + {pid})
    case Die(pid) => n.(live := s.live - {pid}, writers := Others(s.writers, pid), closed := Others(s.closed, pid))
    case Reboot => n.(epoch := s.epoch + 1, live := {}, writers := {}, closed := {})
    case Acquire(h) =>
      if Blocked(w, s) then n
      else n.(lock := Some(Lock(h.pid, w.boot(s.epoch, s.tick), s.epoch)), writers := s.writers + {h})
    case Close(h) =>
      n.(writers := s.writers - {h}, closed := s.closed + {h},
         lock := if s.lock.Some? && s.lock.value.pid == h.pid then None else s.lock)
  }

  function Others(hs: set<Handle>, pid: nat): set<Handle> {
    set h | h in hs && h.pid != pid
  }

  /** A close repeated on an old handle while the same process has the store open again. */
  predicate StaleClose(s: State, step: Step) {
    step.Close? && step.h !in s.writers && exists h :: h in s.writers && h.pid == step.h.pid
  }

  function After(w: World, run: seq<Step>): State {
    if run == [] then INIT else Apply(w, After(w, run[..|run| - 1]), run[|run| - 1])
  }

  /** Every step is enabled, and no process closes a stale handle while holding a new one. */
  ghost predicate Disciplined(w: World, run: seq<Step>) {
    run == [] ||
    var p, step := run[..|run| - 1], run[|run| - 1];
    Disciplined(w, p) && Enabled(w, After(w, p), step) && !StaleClose(After(w, p), step)
  }

  /** The lock stands for the one writer: an open handle belongs to a running process, and the lock
      names that process with a reading taken in this boot. */
  ghost predicate Inv(w: World, s: State) {
    && (forall h :: h in s.writers ==>
          h.pid in s.live && s.lock.Some? && s.lock.value.pid == h.pid && s.lock.value.epoch == s.epoch)
    && (forall h, k :: h in s.writers && k in s.writers ==> h == k)
    && (forall h :: h in s.closed ==> h.pid in s.live)
    && (forall p :: p in s.live ==> p > 0)
    && (s.lock.Some? ==>
          s.lock.value.epoch <= s.epoch && exists t: nat :: s.lock.value.boot == w.boot(s.lock.value.epoch, t))
  }

  /** While a writer is open every other attempt to open is refused. */
  lemma WriterBlocks(w: World, s: State, h: Handle)
    requires BootLaw(w) && Inv(w, s) && SeesLive(w, s) && h in s.writers
    ensures Blocked(w, s)
  {
    var l := s.lock.value;
    var t: nat :| l.boot == w.boot(l.epoch, t);
    assert Abs(w.boot(l.epoch, t) - w.boot(s.epoch, s.tick)) <= 120;
  }

  lemma StepKeepsInv(w: World, s: State, step: Step)
    requires BootLaw(w) && Inv(w, s) && Enabled(w, s, step) && !StaleClose(s, step)
    ensures Inv(w, Apply(w, s, step))
  {
    match step
    case Acquire(h) =>
      if !Blocked(w, s) {
        forall k | k in s.writers ensures false { WriterBlocks(w, s, k); }
        assert s.writers == {};
        assert Apply(w, s, step).lock.value.boot == w.boot(s.epoch, s.tick);
      }
    case Close(h) =>
      if h !in s.writers {
        forall k | k in s.writers ensures k.pid != h.pid { assert !StaleClose(s, step); }
      }
    case _ =>
  }

  lemma {:induction false} DisciplinedInv(w: World, run: seq<Step>)
    requires BootLaw(w) && Disciplined(w, run)
    ensures Inv(w, After(w, run))
  {
    if run != [] {
      DisciplinedInv(w, run[..|run| - 1]);
      StepKeepsInv(w, After(w, run[..|run| - 1]), run[|run| - 1]);
    }
  }

  /** At most one live writer in every reachable state, through crashes, reboots and pid reuse. */
  lemma SingleWriter(w: World, run: seq<Step>, a: Handle, b: Handle)
    requires BootLaw(w) && Disciplined(w, run)
    requires a in After(w, run).writers && b in After(w, run).writers
    ensures a == b && a.pid in After(w, run).live
  {
    DisciplinedInv(w, run);
  }

  /** No permanent lock-out: an opening is refused exactly when the lock was taken in this boot and its
      pid tests alive; a lock from before the last boot never blocks. */
  lemma BlockedExactly(w: World, run: seq<Step>)
    requires BootLaw(w) && Disciplined(w, run)
    ensures var s := After(w, run);
            Blocked(w, s) <==>
              s.lock.Some? && s.lock.value.pid != 0 && s.lock.value.epoch == s.epoch
                && w.alive(s.tick, s.lock.value.pid)
  {
    DisciplinedInv(w, run);
    var s := After(w, run);
    if s.lock.Some? {
      var l := s.lock.value;
      var t: nat :| l.boot == w.boot(l.epoch, t);
      assert Abs(w.boot(l.epoch, t) - w.boot(s.epoch, s.tick)) <= 120 <==> l.epoch == s.epoch;
    }
  }

  /** A close removes only its own process's lock, and never the lock of a store that another process
      has open. */
  lemma CloseIsOwn(w: World, run: seq<Step>, h: Handle)
    requires BootLaw(w) && Disciplined(w, run) && Enabled(w, After(w, run), Close(h))
             && !StaleClose(After(w, run), Close(h))
    ensures var s := After(w, run);
            var n := Apply(w, s, Close(h));
            && (n.lock != s.lock ==> s.lock.Some? && s.lock.value.pid == h.pid && n.lock == None)
            && forall k :: k in n.writers ==> k in s.writers && n.lock.Some? && n.lock.value.pid == k.pid
  {
    DisciplinedInv(w, run);
    StepKeepsInv(w, After(w, run), Close(h));
  }

  /** The discipline is needed: wherever a process closes a stale handle while it has the store open
      again, any other running process can then open it too. */
  lemma StaleCloseAdmitsTwo(w: World, run: seq<Step>, stale: Handle, other: Handle)
    requires BootLaw(w) && Disciplined(w, run)
    requires var s := After(w, run);
             && Enabled(w, s, Close(stale)) && StaleClose(s, Close(stale))
             && Enabled(w, Apply(w, s, Close(stale)), Acquire(other)) && other.pid != stale.pid
    ensures var n := Apply(w, Apply(w, After(w, run), Close(stale)), Acquire(other));
            exists h :: h in n.writers && h != other && other in n.writers && h.pid in n.live && other.pid in n.live
  {
    DisciplinedInv(w, run);
    var s := After(w, run);
    var h :| h in s.writers && h.pid == stale.pid;
    var c := Apply(w, s, Close(stale));
    assert c.lock == None;
    assert h in Apply(w, c, Acquire(other)).writers;
  }

  ghost predicate TwoWriters(s: State) {
    exists a, b :: a in s.writers && b in s.writers && a != b
  }

  /** A close, followed by another running process opening the store, leaves two writers if and only if the close
      was stale. */
  lemma CloseAdmitsTwoIff(w: World, run: seq<Step>, h: Handle, other: Handle)
    requires BootLaw(w) && Disciplined(w, run) && Enabled(w, After(w, run), Close(h))
    requires Enabled(w, Apply(w, After(w, run), Close(h)), Acquire(other)) && other.pid != h.pid
    ensures TwoWriters(Apply(w, Apply(w, After(w, run), Close(h)), Acquire(other)))
            <==> StaleClose(After(w, run), Close(h))
  {
    var s := After(w, run);
    if StaleClose(s, Close(h)) {
      StaleCloseAdmitsTwo(w, run, h, other);
    } else {
      DisciplinedInv(w, run);
      StepKeepsInv(w, s, Close(h));
      StepKeepsInv(w, Apply(w, s, Close(h)), Acquire(other));
    }
  }

  /** A stale close does occur: process 1 opens, closes and opens again, and its first handle is closed once more
      while process 2 waits. */
  lemma StaleCloseReachable() returns (w: World, run: seq<Step>, h: Handle, other: Handle)
    ensures BootLaw(w) && Disciplined(w, run) && Enabled(w, After(w, run), Close(h))
            && StaleClose(After(w, run), Close(h))
    ensures Enabled(w, Apply(w, After(w, run), Close(h)), Acquire(other)) && other.pid != h.pid
  {
    w := World((e: nat, t: nat) => 1000 * e, (t: nat, p: nat) => true);
    h, other := Handle(1, 1), Handle(2, 1);
    var again := Handle(1, 2);
    run := [];
    run := OneMore(w, run, Start(1));
    run := OneMore(w, run, Start(2));
    run := OneMore(w, run, Acquire(h));
    run := OneMore(w, run, Close(h));
    assert After(w, run).writers == {} && After(w, run).closed == {h};
    run := OneMore(w, run, Acquire(again));
    assert again in After(w, run).writers;
  }

  lemma OneMore(w: World, run: seq<Step>, step: Step) returns (more: seq<Step>)
    requires Disciplined(w, run) && Enabled(w, After(w, run), step) && !StaleClose(After(w, run), step)
    ensures Disciplined(w, more) && After(w, more) == Apply(w, After(w, run), step)
  {
    more := run + [step];
    assert more[..|run|] == run;
  }
}
