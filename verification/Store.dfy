/** The resumable store object: configuration guard, repair on opening, appending, and the readers
    that decide what a resumed run skips. */
module Store {
  import opened Options
  import opened Seqs
  import opened Json
  import opened Log
  import opened Records
  import opened WriterLock

  datatype Opening = Ready | ConfigMismatch | Busy
  datatype Loaded<T> = Good(value: T) | CorruptLine

  /** A configuration is a finite map; a key missing on either side counts as null there. */
  type Config = map<string, Json>

  predicate SameConfig(a: Config, b: Config) {
    forall k :: k in a.Keys + b.Keys ==> (if k in a then a[k] else NULL) == (if k in b then b[k] else NULL)
  }

  class ResumableJSONL {
    const loads: Reader
    const lockFile: LockFile
    var file: string
    var torn: string
    var meta: Option<Config>
    var writable: bool
    var claimed: bool

    constructor (loads: Reader, lockFile: LockFile)
      ensures this.loads == loads && this.lockFile == lockFile
      ensures file == "" && torn == "" && meta == None && !writable && !claimed
    {
      this.loads, this.lockFile := loads, lockFile;
      file, torn, meta, writable, claimed := "", "", None, false, false;
    }

    /** Opening for writing: a differing strict configuration stops it with nothing touched, then a live writer's
        lock does; otherwise the lock is this process's, the file is repaired and the handle opened. The first
        opening records the configuration, even one that the lock then refuses. */
    method Open(config: Config, strict: bool, pid: nat, now: int, epoch: nat, alive: nat -> bool) returns (r: Opening)
      modifies this, lockFile
      ensures r == ConfigMismatch <==> strict && old(meta).Some? && !SameConfig(old(meta).value, config)
      ensures r == ConfigMismatch ==> meta == old(meta)
      ensures r == Busy <==>
                && r != ConfigMismatch
                && Refuses(old(lockFile.lock), now, old(lockFile.lock).Some? && alive(old(lockFile.lock).value.pid))
      ensures r != ConfigMismatch ==> meta == (if old(meta).Some? then old(meta) else Some(config))
      ensures r == Ready ==> writable && claimed && lockFile.lock == Some(Lock(pid, now, epoch))
      ensures r == Ready ==> file == Repair(old(file), loads) && torn == old(torn) + Sidecar(old(file), loads)
      ensures r != Ready ==> lockFile.lock == old(lockFile.lock) && file == old(file) && torn == old(torn)
      ensures r != Ready ==> writable == old(writable) && claimed == old(claimed)
    {
      if meta.None? {
        meta := Some(config);
      } else if strict && !SameConfig(meta.value, config) {
        return ConfigMismatch;
      }
      var free := lockFile.Acquire(pid, now, epoch, alive);
      if !free {
        return Busy;
      }
      claimed := true;
      RepairTornTail();
      writable := true;
      return Ready;
    }

    method OpenReadOnly()
      modifies this
      ensures !writable && !claimed && file == old(file) && torn == old(torn) && meta == old(meta)
    {
      writable, claimed := false, false;
    }

    /** Closing ends appending, and gives up the lock if this store claimed it and the lock is still this
        process's. A second close tries again. */
    method Close(pid: nat)
      modifies this, lockFile
      ensures !writable && claimed == old(claimed) && file == old(file) && torn == old(torn) && meta == old(meta)
      ensures lockFile.lock
           == if claimed && old(lockFile.lock).Some? && old(lockFile.lock).value.pid == pid then None
              else old(lockFile.lock)
    {
      writable := false;
      if claimed {
        lockFile.Release(pid);
      }
    }

    /** Nothing is ever destroyed: what is cut from the file is kept in the sidecar. */
    method RepairTornTail()
      modifies this
      ensures file == Repair(old(file), loads) && torn == old(torn) + Sidecar(old(file), loads)
      ensures meta == old(meta) && writable == old(writable) && claimed == old(claimed)
    {
      if file == "" || file[|file| - 1] == '\n' {
        return;
      }
      var cut := |file|;
      while cut > 0 && file[cut - 1] != '\n'
        invariant 0 <= cut <= |file| && file == old(file) && torn == old(torn)
        invariant forall i :: cut <= i < |file| ==> file[i] != '\n'
        invariant meta == old(meta) && writable == old(writable) && claimed == old(claimed)
      {
        cut := cut - 1;
      }
      CutUnique(file, cut);
      var tail := file[cut..];
      if loads(tail).Some? {
        file := file + "\n";
      } else {
        torn := torn + tail + "\n";
        file := file[..cut];
      }
    }

    /** One record, one line; refused on a store that was not opened for writing. */
    method Append(j: Json) returns (ok: bool)
      modifies this
      ensures ok == old(writable) && writable == old(writable)
      ensures file == if ok then old(file) + LineOf(j) else old(file)
      ensures torn == old(torn) && meta == old(meta) && claimed == old(claimed)
    {
      if !writable {
        return false;
      }
      file := file + LineOf(j);
      return true;
    }

    /** All records in order, tolerating a torn last line and nothing worse. */
    method LoadRecords() returns (r: Loaded<seq<Json>>)
      ensures r == match ReadFile(file, loads) case Some(rs) => Good(rs) case None => CorruptLine
    {
      var ls := Lines(file);
      var recs := [];
      for i := 0 to |ls|
        invariant Read(ls, i, loads) == Some(recs)
      {
        match ParseLine(ls, i, loads)
        case Blank =>
        case Value(j) => recs := recs + [j];
        case Corrupt =>
          ReadStops(ls, i + 1, |ls|, loads);
          return CorruptLine;
      }
      return Good(recs);
    }

    /** Keys a resumed run skips. */
    method LoadDone(includeErrors: bool) returns (r: Loaded<set<Json>>)
      ensures r == match ReadFile(file, loads)
                   case Some(rs) => Good(DoneKeys(rs, includeErrors))
                   case None => CorruptLine
    {
      var ls := Lines(file);
      var done: set<Json> := {};
      ghost var recs := [];
      for i := 0 to |ls|
        invariant Read(ls, i, loads) == Some(recs)
        invariant done == DoneKeys(recs, includeErrors)
      {
        match ParseLine(ls, i, loads)
        case Blank =>
        case Value(j) =>
          DoneSnoc(recs, j, includeErrors);
          ghost var before := done;
          if KeyOf(j).Some? && (!Failed(j) || includeErrors) {
            done := done + {KeyOf(j).value};
          } else {
            assert done == before + {};
          }
          recs := recs + [j];
        case Corrupt =>
          ReadStops(ls, i + 1, |ls|, loads);
          return CorruptLine;
      }
      return Good(done);
    }

    /** The last record of every key. */
    method LoadLatest() returns (r: Loaded<map<Json, Json>>)
      ensures r == match ReadFile(file, loads) case Some(rs) => Good(LatestRecords(rs)) case None => CorruptLine
    {
      var recs := LoadRecords();
      if recs.CorruptLine? {
        return CorruptLine;
      }
      var latest: map<Json, Json> := map[];
      for i := 0 to |recs.value|
        invariant latest == LatestRecords(recs.value[..i])
      {
        var j := recs.value[i];
        assert recs.value[..i + 1][..i] == recs.value[..i];
        if KeyOf(j).Some? && KeyOf(j).value != NULL {
          latest := latest[KeyOf(j).value := j];
        }
      }
      assert recs.value[..|recs.value|] == recs.value;
      return Good(latest);
    }
  }

  lemma DoneSnoc(rs: seq<Json>, j: Json, errors: bool)
    ensures DoneKeys(rs + [j], errors)
         == DoneKeys(rs, errors) + if KeyOf(j).Some? && (!Failed(j) || errors) then {KeyOf(j).value} else {}
  {
    assert (rs + [j])[..|rs|] == rs;
  }

  /** What repair moves to the sidecar: the torn tail, terminated. */
  function Sidecar(file: string, loads: Reader): string {
    var cut := CutAt(file);
    if cut == |file| || loads(file[cut..]).Some? then "" else file[cut..] + "\n"
  }

  /** Nothing is destroyed: either the file is repaired without loss, by at most a line break, or the bytes cut from it
      are what the sidecar gained before its line break. */
  lemma SidecarAccounts(file: string, loads: Reader)
    ensures var kept, gained := Repair(file, loads), Sidecar(file, loads);
            || (gained == "" && (kept == file || kept == file + "\n"))
            || (gained != "" && gained[|gained| - 1] == '\n' && kept + gained[..|gained| - 1] == file)
  {
    var cut := CutAt(file);
    assert file[..cut] + file[cut..] == file;
  }

  lemma CutUnique(file: string, cut: nat)
    requires cut <= |file| && (cut > 0 ==> file[cut - 1] == '\n')
    requires forall i :: cut <= i < |file| ==> file[i] != '\n'
    ensures CutAt(file) == cut
  {
    var c := CutAt(file);
  }

  lemma {:induction false} ReadStops(ls: seq<string>, i: nat, n: nat, loads: Reader)
    requires i <= n <= |ls| && Read(ls, i, loads) == None
    ensures Read(ls, n, loads) == None
    decreases n
  {
    if i < n { ReadStops(ls, i, n - 1, loads); }
  }

  /** Items whose key is not yet recorded, in order, and how many were skipped. */
  method FilterPending<T>(items: seq<T>, keyOf: T -> Json, done: set<Json>) returns (pending: seq<T>, skipped: nat)
    ensures pending == Pending(items, keyOf, done)
    ensures skipped == |items| - |pending|
  {
    pending, skipped := [], 0;
    for i := 0 to |items|
      invariant pending == Pending(items[..i], keyOf, done) && skipped == i - |pending|
    {
      assert items[..i + 1][..i] == items[..i];
      if keyOf(items[i]) in done {
        skipped := skipped + 1;
      } else {
        pending := pending + [items[i]];
      }
    }
    assert items[..|items|] == items;
  }

  function Pending<T>(items: seq<T>, keyOf: T -> Json, done: set<Json>): seq<T> {
    if items == [] then []
    else
      Pending(items[..|items| - 1], keyOf, done)
      + if keyOf(items[|items| - 1]) in done then [] else [items[|items| - 1]]
  }

  ghost predicate DistinctKeys<T>(items: seq<T>, keyOf: T -> Json) {
    forall a, b :: 0 <= a < b < |items| ==> keyOf(items[a]) != keyOf(items[b])
  }

  /** Pending items are exactly those not done. */
  lemma {:induction false} PendingExactly<T>(items: seq<T>, keyOf: T -> Json, done: set<Json>, x: T)
    ensures x in Pending(items, keyOf, done) <==> x in items && keyOf(x) !in done
  {
    if items != [] {
      PendingExactly(items[..|items| - 1], keyOf, done, x);
      assert items == items[..|items| - 1] + [items[|items| - 1]];
    }
  }

  /** The pending items are the others in their order: where each of them stands in the list. */
  lemma {:induction false} PendingInOrder<T>(items: seq<T>, keyOf: T -> Json, done: set<Json>) returns (at: seq<nat>)
    ensures |at| == |Pending(items, keyOf, done)| && forall i, j :: 0 <= i < j < |at| ==> at[i] < at[j]
    ensures forall i :: 0 <= i < |at| ==> at[i] < |items| && Pending(items, keyOf, done)[i] == items[at[i]]
    ensures forall n: nat :: n in at <==> n < |items| && keyOf(items[n]) !in done
  {
    at := [];
    if items != [] {
      var n := |items| - 1;
      var front, last := items[..n], items[n];
      var before := PendingInOrder(front, keyOf, done);
      at := before + if keyOf(last) in done then [] else [n];
      assert Pending(items, keyOf, done) == Pending(front, keyOf, done) + if keyOf(last) in done then [] else [last];
      assert forall l :: 0 <= l < n ==> front[l] == items[l];
      PlacesGrow(before, n, at);
    }
  }

  /** With distinct keys no pending key repeats. */
  lemma {:induction false} PendingDistinct<T>(items: seq<T>, keyOf: T -> Json, done: set<Json>)
    requires DistinctKeys(items, keyOf)
    ensures DistinctKeys(Pending(items, keyOf, done), keyOf)
  {
    if items != [] {
      var rest, x := items[..|items| - 1], items[|items| - 1];
      PendingDistinct(rest, keyOf, done);
      var p := Pending(rest, keyOf, done);
      forall a | 0 <= a < |p| ensures keyOf(p[a]) != keyOf(x) {
        PendingExactly(rest, keyOf, done, p[a]);
        var i :| 0 <= i < |rest| && rest[i] == p[a];
        assert items[i] == p[a];
      }
    }
  }

  /** What a configuration says of a key. */
  function Setting(c: Config, k: string): Json {
    if k in c then c[k] else Atom("null")
  }

  /** A configuration is admitted exactly when it says the same as the recorded one of every key there is. */
  lemma SameConfigIff(a: Config, b: Config)
    ensures SameConfig(a, b) <==> forall k: string :: Setting(a, k) == Setting(b, k)
  {
    if SameConfig(a, b) {
      forall k: string ensures Setting(a, k) == Setting(b, k) {
        if k in a || k in b { assert k in a.Keys + b.Keys; }
      }
    } else {
      var k :| k in a.Keys + b.Keys && (if k in a then a[k] else NULL) != (if k in b then b[k] else NULL);
      assert Setting(a, k) != Setting(b, k);
    }
  }

  /** Two sessions admitted under the same recorded configuration were configured alike: no store mixes
      rows of two configurations. */
  lemma AdmittedConfigsAgree(meta: Config, a: Config, b: Config)
    requires SameConfig(meta, a) && SameConfig(meta, b)
    ensures SameConfig(a, b)
  {
    forall k | k in a.Keys + b.Keys
      ensures (if k in a then a[k] else NULL) == (if k in b then b[k] else NULL)
    {
      if k in a { assert k in meta.Keys + a.Keys; }
      if k in b { assert k in meta.Keys + b.Keys; }
      if k !in a && k in meta { assert k in meta.Keys + a.Keys; }
      if k !in b && k in meta { assert k in meta.Keys + b.Keys; }
    }
  }
}
